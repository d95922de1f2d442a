/** 4-connected paths on a w × h pixel grid addressed by linear index, and the
    closure argument both flood fills of the segmenter rely on: a visited set
    that contains its sources and is closed under stepping to an allowed
    neighbour contains everything reachable from them. */
module Grid {
  import opened Raster

  /** p and q are distinct 4-neighbours (left, right, above, below). */
  predicate Adjacent(w: int, h: int, p: int, q: int) {
    && w > 0 && 0 <= p < w * h && 0 <= q < w * h
    && ((p / w == q / w && (q % w == p % w - 1 || q % w == p % w + 1))
        || (p % w == q % w && (q / w == p / w - 1 || q / w == p / w + 1)))
  }

  function Last(s: seq<int>): int
    requires |s| > 0
  {
    s[|s| - 1]
  }

  /** A non-empty walk through allowed pixels, each step to a 4-neighbour. */
  ghost predicate IsPath(w: int, h: int, allowed: seq<bool>, path: seq<int>) {
    && |path| > 0
    && (forall i :: 0 <= i < |path| ==> At(allowed, path[i]))
    && (forall i, j :: 0 <= i < |path| - 1 && j == i + 1 ==> Adjacent(w, h, path[i], path[j]))
  }

  /** p can be reached from one of the sources through allowed pixels. */
  ghost predicate Reaches(w: int, h: int, allowed: seq<bool>, sources: set<int>, p: int) {
    exists path :: IsPath(w, h, allowed, path) && path[0] in sources && Last(path) == p
  }

  /** Pixel (x, y) needs no visit: it is off the grid, not allowed, or visited. */
  predicate Covered(w: int, h: int, allowed: seq<bool>, vis: seq<bool>, x: int, y: int) {
    !InGrid(w, h, x, y) || !At(allowed, Pos(w, x, y)) || At(vis, Pos(w, x, y))
  }

  /** All four neighbours of p are covered: popping p has nothing left to push. */
  predicate ClosedAt(w: int, h: int, allowed: seq<bool>, vis: seq<bool>, p: int) {
    && w > 0
    && Covered(w, h, allowed, vis, p % w - 1, p / w)
    && Covered(w, h, allowed, vis, p % w + 1, p / w)
    && Covered(w, h, allowed, vis, p % w, p / w - 1)
    && Covered(w, h, allowed, vis, p % w, p / w + 1)
  }

  /** Every visited pixel carries a path from a source that ends at it. */
  ghost predicate Witnessed(w: int, h: int, allowed: seq<bool>, sources: set<int>,
                            vis: seq<bool>, paths: map<int, seq<int>>) {
    forall p :: At(vis, p) ==>
      p in paths && IsPath(w, h, allowed, paths[p]) && paths[p][0] in sources && Last(paths[p]) == p
  }

  /** A pixel on the boundary rows or columns of the grid. */
  predicate OnBorder(w: int, h: int, p: int) {
    w > 0 && 0 <= p < w * h && (p / w == 0 || p / w == h - 1 || p % w == 0 || p % w == w - 1)
  }

  ghost function BorderCells(w: int, h: int): set<int> {
    set p | 0 <= p < w * h && OnBorder(w, h, p)
  }

  // ---------------------------------------------------------------------

  /** (nx, ny) is the left, right, upper or lower neighbour of linear pixel p. */
  predicate IsNeighbourOf(w: int, p: int, nx: int, ny: int)
    requires w > 0
  {
    || (ny == p / w && (nx == p % w - 1 || nx == p % w + 1))
    || (nx == p % w && (ny == p / w - 1 || ny == p / w + 1))
  }

  /** A neighbour given by coordinates is adjacent to p as a linear index. */
  lemma NeighbourAdjacent(w: int, h: int, p: int, nx: int, ny: int)
    requires w > 0 && 0 <= p < w * h && InGrid(w, h, nx, ny) && IsNeighbourOf(w, p, nx, ny)
    ensures Adjacent(w, h, p, Pos(w, nx, ny))
  {
    PosDecode(w, nx, ny);
    PosInRange(w, h, nx, ny);
  }

  /** A closed pixel's allowed neighbours are visited. */
  lemma ClosedStep(w: int, h: int, allowed: seq<bool>, vis: seq<bool>, p: int, q: int)
    requires ClosedAt(w, h, allowed, vis, p) && Adjacent(w, h, p, q) && At(allowed, q)
    ensures At(vis, q)
  {
    IndexInGrid(w, h, q);
  }

  /** Walking from a visited pixel through closed pixels never leaves the visited set. */
  lemma {:induction false} ClosedPathStaysVisited(w: int, h: int, allowed: seq<bool>, vis: seq<bool>, path: seq<int>)
    requires IsPath(w, h, allowed, path) && At(vis, path[0])
    requires forall p :: At(vis, p) ==> ClosedAt(w, h, allowed, vis, p)
    ensures At(vis, Last(path))
    decreases |path|
  {
    if |path| > 1 {
      ClosedStep(w, h, allowed, vis, path[0], path[1]);
      var rest := path[1..];
      assert forall i :: 0 <= i < |rest| ==> rest[i] == path[i + 1];
      ClosedPathStaysVisited(w, h, allowed, vis, rest);
    }
  }

  /** The closure theorem: visited sources and closed visited pixels imply that
      every reachable pixel is visited. */
  lemma ReachableVisited(w: int, h: int, allowed: seq<bool>, sources: set<int>, vis: seq<bool>, q: int)
    requires forall s :: s in sources && At(allowed, s) ==> At(vis, s)
    requires forall p :: At(vis, p) ==> ClosedAt(w, h, allowed, vis, p)
    requires Reaches(w, h, allowed, sources, q)
    ensures At(vis, q)
  {
    var path :| IsPath(w, h, allowed, path) && path[0] in sources && Last(path) == q;
    ClosedPathStaysVisited(w, h, allowed, vis, path);
  }

  /** A witnessed visited pixel is reachable. */
  lemma WitnessedReaches(w: int, h: int, allowed: seq<bool>, sources: set<int>,
                         vis: seq<bool>, paths: map<int, seq<int>>, p: int)
    requires Witnessed(w, h, allowed, sources, vis, paths) && At(vis, p)
    ensures Reaches(w, h, allowed, sources, p)
  {
    assert IsPath(w, h, allowed, paths[p]);
  }

  /** Reachable pixels are allowed and inside the grid. */
  lemma ReachesAllowed(w: int, h: int, allowed: seq<bool>, sources: set<int>, p: int)
    requires Reaches(w, h, allowed, sources, p)
    ensures At(allowed, p)
  {
    var path :| IsPath(w, h, allowed, path) && path[0] in sources && Last(path) == p;
    assert At(allowed, path[|path| - 1]);
  }

  /** Marking a source visited keeps every visited pixel witnessed. */
  lemma WitnessSource(w: int, h: int, allowed: seq<bool>, sources: set<int>,
                      vis: seq<bool>, paths: map<int, seq<int>>, s: int)
    requires Witnessed(w, h, allowed, sources, vis, paths)
    requires 0 <= s < |vis| && s in sources && At(allowed, s)
    ensures Witnessed(w, h, allowed, sources, vis[s := true], paths[s := [s]])
  {
    assert IsPath(w, h, allowed, [s]);
  }

  /** Marking an allowed neighbour of a visited pixel keeps every visited pixel witnessed. */
  lemma WitnessStep(w: int, h: int, allowed: seq<bool>, sources: set<int>,
                    vis: seq<bool>, paths: map<int, seq<int>>, p: int, q: int)
    requires Witnessed(w, h, allowed, sources, vis, paths)
    requires At(vis, p) && Adjacent(w, h, p, q) && At(allowed, q) && 0 <= q < |vis|
    ensures Witnessed(w, h, allowed, sources, vis[q := true], paths[q := paths[p] + [q]])
  {
    var path := paths[p] + [q];
    assert IsPath(w, h, allowed, path) by {
      assert forall i :: 0 <= i < |paths[p]| ==> path[i] == paths[p][i];
    }
  }

  /** The top and bottom cells of the first i columns are covered. */
  predicate RowsCovered(rw: int, rh: int, allowed: seq<bool>, vis: seq<bool>, i: int) {
    forall x :: 0 <= x < i ==> Covered(rw, rh, allowed, vis, x, 0) && Covered(rw, rh, allowed, vis, x, rh - 1)
  }

  /** The left and right cells of the first j rows are covered. */
  predicate ColumnsCovered(rw: int, rh: int, allowed: seq<bool>, vis: seq<bool>, j: int) {
    forall y :: 0 <= y < j ==> Covered(rw, rh, allowed, vis, 0, y) && Covered(rw, rh, allowed, vis, rw - 1, y)
  }

  lemma SidesCoveredMono(rw: int, rh: int, allowed: seq<bool>, vis: seq<bool>, vis': seq<bool>, i: int, j: int)
    requires forall k :: At(vis, k) ==> At(vis', k)
    ensures RowsCovered(rw, rh, allowed, vis, i) ==> RowsCovered(rw, rh, allowed, vis', i)
    ensures ColumnsCovered(rw, rh, allowed, vis, j) ==> ColumnsCovered(rw, rh, allowed, vis', j)
  {
    forall x | 0 <= x < i && RowsCovered(rw, rh, allowed, vis, i)
      ensures Covered(rw, rh, allowed, vis', x, 0) && Covered(rw, rh, allowed, vis', x, rh - 1)
    {
      CoveredMono(rw, rh, allowed, vis, vis', x, 0);
      CoveredMono(rw, rh, allowed, vis, vis', x, rh - 1);
    }
    forall y | 0 <= y < j && ColumnsCovered(rw, rh, allowed, vis, j)
      ensures Covered(rw, rh, allowed, vis', 0, y) && Covered(rw, rh, allowed, vis', rw - 1, y)
    {
      CoveredMono(rw, rh, allowed, vis, vis', 0, y);
      CoveredMono(rw, rh, allowed, vis, vis', rw - 1, y);
    }
  }

  /** Covering the four sides of the grid covers every border cell. */
  lemma BorderCovered(w: int, h: int, allowed: seq<bool>, vis: seq<bool>)
    requires w > 0 && RowsCovered(w, h, allowed, vis, w) && ColumnsCovered(w, h, allowed, vis, h)
    ensures forall b :: b in BorderCells(w, h) && At(allowed, b) ==> At(vis, b)
  {
    forall b | b in BorderCells(w, h) && At(allowed, b)
      ensures At(vis, b)
    {
      IndexInGrid(w, h, b);
      var x, y := b % w, b / w;
      if y == 0 {
        assert Covered(w, h, allowed, vis, x, 0);
      } else if y == h - 1 {
        assert Covered(w, h, allowed, vis, x, 0) && Covered(w, h, allowed, vis, x, h - 1);
      } else if x == 0 {
        assert Covered(w, h, allowed, vis, 0, y);
      } else {
        assert x == w - 1;
        assert Covered(w, h, allowed, vis, 0, y) && Covered(w, h, allowed, vis, w - 1, y);
      }
    }
  }

  // ---------------------------------------------------------------------
  // Work-list bookkeeping shared by the stack-based and the queue-based fill

  /** Pixels not yet visited; shrinks with every push, so the fill terminates. */
  ghost function Unvisited(vis: seq<bool>): set<int> {
    set k | 0 <= k < |vis| && !vis[k]
  }

  lemma UnvisitedMark(vis: seq<bool>, q: int)
    requires 0 <= q < |vis| && !vis[q]
    ensures Unvisited(vis[q := true]) < Unvisited(vis)
  {
    assert q in Unvisited(vis) && q !in Unvisited(vis[q := true]);
  }

  lemma ClosedMono(w: int, h: int, allowed: seq<bool>, vis: seq<bool>, vis': seq<bool>, p: int)
    requires forall k :: At(vis, k) ==> At(vis', k)
    requires ClosedAt(w, h, allowed, vis, p)
    ensures ClosedAt(w, h, allowed, vis', p)
  {
  }

  lemma CoveredMono(w: int, h: int, allowed: seq<bool>, vis: seq<bool>, vis': seq<bool>, x: int, y: int)
    requires forall k :: At(vis, k) ==> At(vis', k)
    requires Covered(w, h, allowed, vis, x, y)
    ensures Covered(w, h, allowed, vis', x, y)
  {
  }

  /** Pixel p has been visited and popped: it is no longer on the work list. */
  predicate Settled(vis: seq<bool>, work: seq<int>, p: int) {
    At(vis, p) && p !in work
  }

  /** Visiting may only add pixels, every newly visited pixel is on the work
      list, and nothing leaves the work list. */
  ghost predicate Grows(vis: seq<bool>, work: seq<int>, vis': seq<bool>, work': seq<int>) {
    && |vis'| == |vis|
    && (forall k :: At(vis, k) ==> At(vis', k))
    && (forall k :: At(vis', k) && !At(vis, k) ==> k in work')
    && (forall k :: k in work ==> k in work')
  }

  /** Every entry of the work list is a visited pixel. */
  ghost predicate WorkVisited(vis: seq<bool>, work: seq<int>) {
    forall i :: 0 <= i < |work| ==> At(vis, work[i])
  }

  /** One push, seen from the loop: the visited set grows, or nothing changes. */
  lemma PushGrows(vis: seq<bool>, work: seq<int>, vis': seq<bool>, work': seq<int>)
    requires (vis' == vis && work' == work)
          || (exists q :: 0 <= q < |vis| && !vis[q] && vis' == vis[q := true] && work' == work + [q])
    requires WorkVisited(vis, work)
    ensures Grows(vis, work, vis', work') && WorkVisited(vis', work')
    ensures Progress(vis, work, vis', work')
  {
    if vis' != vis || work' != work {
      var q :| 0 <= q < |vis| && !vis[q] && vis' == vis[q := true] && work' == work + [q];
      UnvisitedMark(vis, q);
    }
  }

  /** Either nothing changed or the unvisited set strictly shrank. */
  ghost predicate Progress(vis: seq<bool>, work: seq<int>, vis': seq<bool>, work': seq<int>) {
    (vis' == vis && work' == work) || Unvisited(vis') < Unvisited(vis)
  }

  lemma ProgressTrans(v0: seq<bool>, w0: seq<int>, v1: seq<bool>, w1: seq<int>, v2: seq<bool>, w2: seq<int>)
    requires Progress(v0, w0, v1, w1) && Progress(v1, w1, v2, w2)
    ensures Progress(v0, w0, v2, w2)
  {
  }

  lemma GrowsTrans(v0: seq<bool>, w0: seq<int>, v1: seq<bool>, w1: seq<int>, v2: seq<bool>, w2: seq<int>)
    requires Grows(v0, w0, v1, w1) && Grows(v1, w1, v2, w2)
    ensures Grows(v0, w0, v2, w2)
  {
  }

  /** p was taken off the end of work0, leaving rest. */
  predicate Popped(work0: seq<int>, rest: seq<int>, p: int) {
    |work0| > 0 && rest == work0[..|work0| - 1] && p == work0[|work0| - 1]
  }

  lemma PoppedSplit(work0: seq<int>, rest: seq<int>, p: int)
    requires Popped(work0, rest, p)
    ensures work0 == rest + [p]
    ensures forall k :: k in work0 ==> k == p || k in rest
  {
    assert work0 == work0[..|work0| - 1] + [work0[|work0| - 1]];
  }

  /** p was taken off the front of work0, leaving rest. */
  predicate Shifted(work0: seq<int>, rest: seq<int>, p: int) {
    |work0| > 0 && rest == work0[1..] && p == work0[0]
  }

  lemma ShiftedSplit(work0: seq<int>, rest: seq<int>, p: int)
    requires Shifted(work0, rest, p)
    ensures work0 == [p] + rest
    ensures forall k :: k in work0 ==> k == p || k in rest
  {
    assert work0 == [work0[0]] + work0[1..];
  }

  /** After popping p (what is left of the work list is `rest`) and visiting its
      neighbours, every settled pixel is still closed. */
  lemma SettledStaysClosed(w: int, h: int, allowed: seq<bool>, vis0: seq<bool>, work0: seq<int>,
                           rest: seq<int>, vis: seq<bool>, work: seq<int>, p: int)
    requires Popped(work0, rest, p) || Shifted(work0, rest, p)
    requires forall k :: Settled(vis0, work0, k) ==> ClosedAt(w, h, allowed, vis0, k)
    requires Grows(vis0, rest, vis, work) && ClosedAt(w, h, allowed, vis, p)
    ensures forall k :: Settled(vis, work, k) ==> ClosedAt(w, h, allowed, vis, k)
  {
    if Popped(work0, rest, p) {
      PoppedSplit(work0, rest, p);
    } else {
      ShiftedSplit(work0, rest, p);
    }
    forall k | Settled(vis, work, k)
      ensures ClosedAt(w, h, allowed, vis, k)
    {
      if k != p {
        assert Settled(vis0, work0, k);
        ClosedMono(w, h, allowed, vis0, vis, k);
      }
    }
  }

  /** When the work list runs empty, the visited set is exactly the set of
      pixels reachable from the sources. */
  lemma ExhaustedIsReachable(w: int, h: int, allowed: seq<bool>, sources: set<int>,
                             vis: seq<bool>, paths: map<int, seq<int>>)
    requires Witnessed(w, h, allowed, sources, vis, paths)
    requires forall s :: s in sources && At(allowed, s) ==> At(vis, s)
    requires forall k :: Settled(vis, [], k) ==> ClosedAt(w, h, allowed, vis, k)
    ensures forall p :: 0 <= p < |vis| ==> (vis[p] <==> Reaches(w, h, allowed, sources, p))
  {
    assert forall k :: At(vis, k) ==> Settled(vis, [], k);
    forall p | 0 <= p < |vis|
      ensures vis[p] <==> Reaches(w, h, allowed, sources, p)
    {
      if vis[p] {
        WitnessedReaches(w, h, allowed, sources, vis, paths, p);
      } else if Reaches(w, h, allowed, sources, p) {
        ReachableVisited(w, h, allowed, sources, vis, p);
      }
    }
  }
}
