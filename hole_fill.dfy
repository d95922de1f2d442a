/** The second stage of screen segmentation, run inside the bounding box of the
    flood fill: crop the visited flags into a base mask, flood the complement
    of that mask breadth-first from the box border, and classify every cell
    the border flood cannot reach (a hole) as screen when it is white or as a
    dark island otherwise. */
module HoleFill {
  import opened Raster
  import opened Grid

  /** Cells the border flood may walk on: those outside the base mask. */
  function Complement(base: seq<bool>): (c: seq<bool>)
    ensures |c| == |base|
    ensures forall k :: 0 <= k < |base| ==> c[k] == !base[k]
  {
    seq(|base|, k requires 0 <= k < |base| => !base[k])
  }

  /** Cell k of an rw-wide box at (rx, ry) is frame pixel (rx + k % rw, ry + k / rw). */
  function FramePixel(w: int, rx: int, ry: int, rw: int, k: int): int
    requires rw > 0
  {
    Pos(w, rx + k % rw, ry + k / rw)
  }

  /** The base mask: cell k copies the visited flag of the frame pixel under it. */
  function Crop(visited: seq<bool>, w: int, rx: int, ry: int, rw: nat, rh: nat): (c: seq<bool>)
    requires rw > 0
    ensures |c| == rw * rh
  {
    seq(rw * rh, k => At(visited, FramePixel(w, rx, ry, rw, k)))
  }

  /** Building `baseMask` row by row. */
  method BuildBaseMask(visited: seq<bool>, w: int, rx: int, ry: int, rw: nat, rh: nat)
    returns (base: seq<bool>)
    requires rw > 0
    ensures base == Crop(visited, w, rx, ry, rw, rh)
  {
    var mask := new bool[rw * rh];
    for j := 0 to rh
      invariant j * rw <= rw * rh
      invariant forall k :: 0 <= k < j * rw ==> mask[k] == Crop(visited, w, rx, ry, rw, rh)[k]
    {
      CopyRow(visited, w, rx, ry, rw, rh, mask, j);
    }
    base := mask[..];
  }

  /** The inner loop of `baseMask`: fill row j, leaving earlier rows alone. */
  method CopyRow(visited: seq<bool>, w: int, rx: int, ry: int, rw: nat, rh: nat, mask: array<bool>, j: int)
    requires rw > 0 && 0 <= j < rh && mask.Length == rw * rh
    requires forall k :: 0 <= k < j * rw ==> mask[k] == Crop(visited, w, rx, ry, rw, rh)[k]
    modifies mask
    ensures (j + 1) * rw <= rw * rh
    ensures forall k :: 0 <= k < (j + 1) * rw ==> mask[k] == Crop(visited, w, rx, ry, rw, rh)[k]
  {
    ghost var spec := Crop(visited, w, rx, ry, rw, rh);
    ghost var n := j * rw;
    for i := 0 to rw
      invariant n == j * rw + i && n <= rw * rh
      invariant forall k :: 0 <= k < n ==> mask[k] == spec[k]
    {
      var pos := (ry + j) * w + (rx + i);
      CropCell(visited, w, rx, ry, rw, rh, i, j);
      mask[j * rw + i] := 0 <= pos < |visited| && visited[pos];
      n := n + 1;
    }
    assert (j + 1) * rw == j * rw + rw;
  }

  /** Cell (i, j) of the box lies over frame pixel (rx + i, ry + j). */
  lemma FrameCell(w: int, rx: int, ry: int, rw: nat, rh: nat, i: int, j: int)
    requires rw > 0 && InGrid(rw, rh, i, j)
    ensures 0 <= Pos(rw, i, j) < rw * rh
    ensures FramePixel(w, rx, ry, rw, Pos(rw, i, j)) == Pos(w, rx + i, ry + j)
  {
    PosDecode(rw, i, j);
    PosInRange(rw, rh, i, j);
  }

  /** Cell (i, j) of the base mask is the visited flag of frame pixel (rx + i, ry + j). */
  lemma CropCell(visited: seq<bool>, w: int, rx: int, ry: int, rw: nat, rh: nat, i: int, j: int)
    requires rw > 0 && InGrid(rw, rh, i, j)
    ensures 0 <= Pos(rw, i, j) < rw * rh
    ensures Crop(visited, w, rx, ry, rw, rh)[Pos(rw, i, j)] == At(visited, Pos(w, rx + i, ry + j))
  {
    FrameCell(w, rx, ry, rw, rh, i, j);
  }

  // ---------------------------------------------------------------------
  // The border flood

  /** `enqueueIf`, used to seed the border flood: queue border cell (ix, iy)
      when it is inside the box, unseen and outside the base mask. */
  method EnqueueIf(base: seq<bool>, rw: nat, rh: nat, seen: array<bool>, queue: seq<int>,
                   ghost paths: map<int, seq<int>>, ix: int, iy: int)
    returns (queue': seq<int>, ghost paths': map<int, seq<int>>)
    requires rw > 0 && |base| == rw * rh && seen.Length == rw * rh
    requires Witnessed(rw, rh, Complement(base), BorderCells(rw, rh), seen[..], paths)
    requires iy == 0 || iy == rh - 1 || ix == 0 || ix == rw - 1
    modifies seen
    ensures Witnessed(rw, rh, Complement(base), BorderCells(rw, rh), seen[..], paths')
    ensures Covered(rw, rh, Complement(base), seen[..], ix, iy)
    ensures (seen[..] == old(seen[..]) && queue' == queue)
         || (exists q :: 0 <= q < seen.Length && !old(seen[q]) && seen[..] == old(seen[..])[q := true] && queue' == queue + [q])
  {
    queue', paths' := queue, paths;
    if ix < 0 || iy < 0 || ix >= rw || iy >= rh {
      return;
    }
    var p := iy * rw + ix;
    PosInRange(rw, rh, ix, iy);
    if seen[p] {
      return;
    }
    if !base[p] {
      PosDecode(rw, ix, iy);
      assert p in BorderCells(rw, rh);
      WitnessSource(rw, rh, Complement(base), BorderCells(rw, rh), seen[..], paths, p);
      seen[p] := true;
      paths' := paths[p := [p]];
      queue' := queue + [p];
    }
  }

  /** `pushN`: queue neighbour (ix, iy) of the dequeued cell p when it is
      inside the box, unseen and outside the base mask. */
  method PushN(base: seq<bool>, rw: nat, rh: nat, seen: array<bool>, queue: seq<int>,
               ghost paths: map<int, seq<int>>, ghost p: int, ix: int, iy: int)
    returns (queue': seq<int>, ghost paths': map<int, seq<int>>)
    requires rw > 0 && |base| == rw * rh && seen.Length == rw * rh
    requires Witnessed(rw, rh, Complement(base), BorderCells(rw, rh), seen[..], paths)
    requires 0 <= p < seen.Length && seen[p] && IsNeighbourOf(rw, p, ix, iy)
    modifies seen
    ensures Witnessed(rw, rh, Complement(base), BorderCells(rw, rh), seen[..], paths')
    ensures Covered(rw, rh, Complement(base), seen[..], ix, iy)
    ensures (seen[..] == old(seen[..]) && queue' == queue)
         || (exists q :: 0 <= q < seen.Length && !old(seen[q]) && seen[..] == old(seen[..])[q := true] && queue' == queue + [q])
  {
    queue', paths' := queue, paths;
    if ix < 0 || iy < 0 || ix >= rw || iy >= rh {
      return;
    }
    var np := iy * rw + ix;
    PosInRange(rw, rh, ix, iy);
    if seen[np] {
      return;
    }
    if !base[np] {
      NeighbourAdjacent(rw, rh, p, ix, iy);
      WitnessStep(rw, rh, Complement(base), BorderCells(rw, rh), seen[..], paths, p, np);
      seen[np] := true;
      paths' := paths[np := paths[p] + [np]];
      queue' := queue + [np];
    }
  }

  /** Two consecutive `pushN` calls for neighbours (x1, y1) and (x2, y2) of p. */
  method PushNTwo(base: seq<bool>, rw: nat, rh: nat, seen: array<bool>, queue: seq<int>,
                  ghost paths: map<int, seq<int>>, p: int, x1: int, y1: int, x2: int, y2: int)
    returns (queue': seq<int>, ghost paths': map<int, seq<int>>)
    requires rw > 0 && |base| == rw * rh && seen.Length == rw * rh
    requires Witnessed(rw, rh, Complement(base), BorderCells(rw, rh), seen[..], paths)
    requires 0 <= p < seen.Length && seen[p] && WorkVisited(seen[..], queue)
    requires IsNeighbourOf(rw, p, x1, y1) && IsNeighbourOf(rw, p, x2, y2)
    modifies seen
    ensures Witnessed(rw, rh, Complement(base), BorderCells(rw, rh), seen[..], paths')
    ensures Covered(rw, rh, Complement(base), seen[..], x1, y1)
    ensures Covered(rw, rh, Complement(base), seen[..], x2, y2)
    ensures Grows(old(seen[..]), queue, seen[..], queue') && WorkVisited(seen[..], queue')
    ensures Progress(old(seen[..]), queue, seen[..], queue')
  {
    ghost var v0, s0 := seen[..], queue;
    queue', paths' := PushN(base, rw, rh, seen, queue, paths, p, x1, y1);
    ghost var v1, s1 := seen[..], queue';
    PushGrows(v0, s0, v1, s1);
    assert At(v0, p) && At(v1, p);
    queue', paths' := PushN(base, rw, rh, seen, queue', paths', p, x2, y2);
    ghost var v2, s2 := seen[..], queue';
    PushGrows(v1, s1, v2, s2);
    GrowsTrans(v0, s0, v1, s1, v2, s2);
    ProgressTrans(v0, s0, v1, s1, v2, s2);
    CoveredMono(rw, rh, Complement(base), v1, v2, x1, y1);
  }

  /** The four `pushN` calls for the dequeued cell p (left, right, up, down). */
  method PushAround(base: seq<bool>, rw: nat, rh: nat, seen: array<bool>, queue: seq<int>,
                    ghost paths: map<int, seq<int>>, p: int)
    returns (queue': seq<int>, ghost paths': map<int, seq<int>>)
    requires rw > 0 && |base| == rw * rh && seen.Length == rw * rh
    requires Witnessed(rw, rh, Complement(base), BorderCells(rw, rh), seen[..], paths)
    requires 0 <= p < seen.Length && seen[p] && WorkVisited(seen[..], queue)
    modifies seen
    ensures Witnessed(rw, rh, Complement(base), BorderCells(rw, rh), seen[..], paths')
    ensures ClosedAt(rw, rh, Complement(base), seen[..], p)
    ensures Grows(old(seen[..]), queue, seen[..], queue') && WorkVisited(seen[..], queue')
    ensures Progress(old(seen[..]), queue, seen[..], queue')
  {
    var px, py := p % rw, p / rw;
    ghost var v0, s0 := seen[..], queue;
    queue', paths' := PushNTwo(base, rw, rh, seen, queue, paths, p, px - 1, py, px + 1, py);
    ghost var v1, s1 := seen[..], queue';
    assert At(v0, p) && At(v1, p);
    queue', paths' := PushNTwo(base, rw, rh, seen, queue', paths', p, px, py - 1, px, py + 1);
    ghost var v2, s2 := seen[..], queue';
    GrowsTrans(v0, s0, v1, s1, v2, s2);
    ProgressTrans(v0, s0, v1, s1, v2, s2);
    CoveredMono(rw, rh, Complement(base), v1, v2, px - 1, py);
    CoveredMono(rw, rh, Complement(base), v1, v2, px + 1, py);
  }

  /** Two `enqueueIf` calls of the border seeding, for cells (x1, y1) and (x2, y2). */
  method EnqueueTwo(base: seq<bool>, rw: nat, rh: nat, seen: array<bool>, queue: seq<int>,
                    ghost paths: map<int, seq<int>>, x1: int, y1: int, x2: int, y2: int)
    returns (queue': seq<int>, ghost paths': map<int, seq<int>>)
    requires rw > 0 && |base| == rw * rh && seen.Length == rw * rh
    requires Witnessed(rw, rh, Complement(base), BorderCells(rw, rh), seen[..], paths)
    requires WorkVisited(seen[..], queue)
    requires y1 == 0 || y1 == rh - 1 || x1 == 0 || x1 == rw - 1
    requires y2 == 0 || y2 == rh - 1 || x2 == 0 || x2 == rw - 1
    modifies seen
    ensures Witnessed(rw, rh, Complement(base), BorderCells(rw, rh), seen[..], paths')
    ensures Covered(rw, rh, Complement(base), seen[..], x1, y1)
    ensures Covered(rw, rh, Complement(base), seen[..], x2, y2)
    ensures Grows(old(seen[..]), queue, seen[..], queue') && WorkVisited(seen[..], queue')
  {
    ghost var v0, s0 := seen[..], queue;
    queue', paths' := EnqueueIf(base, rw, rh, seen, queue, paths, x1, y1);
    ghost var v1, s1 := seen[..], queue';
    PushGrows(v0, s0, v1, s1);
    queue', paths' := EnqueueIf(base, rw, rh, seen, queue', paths', x2, y2);
    ghost var v2, s2 := seen[..], queue';
    PushGrows(v1, s1, v2, s2);
    GrowsTrans(v0, s0, v1, s1, v2, s2);
    CoveredMono(rw, rh, Complement(base), v1, v2, x1, y1);
  }

  /** Expanding the cell p just shifted off the front of queue0 (leaving rest). */
  method ExpandCell(base: seq<bool>, rw: nat, rh: nat, seen: array<bool>, ghost queue0: seq<int>,
                    rest: seq<int>, ghost paths: map<int, seq<int>>, p: int)
    returns (queue': seq<int>, ghost paths': map<int, seq<int>>)
    requires rw > 0 && |base| == rw * rh && seen.Length == rw * rh
    requires Witnessed(rw, rh, Complement(base), BorderCells(rw, rh), seen[..], paths)
    requires Shifted(queue0, rest, p) && 0 <= p < seen.Length && WorkVisited(seen[..], queue0)
    requires forall k :: Settled(seen[..], queue0, k) ==> ClosedAt(rw, rh, Complement(base), seen[..], k)
    modifies seen
    ensures Witnessed(rw, rh, Complement(base), BorderCells(rw, rh), seen[..], paths')
    ensures Grows(old(seen[..]), rest, seen[..], queue') && WorkVisited(seen[..], queue')
    ensures forall k :: Settled(seen[..], queue', k) ==> ClosedAt(rw, rh, Complement(base), seen[..], k)
    ensures Unvisited(seen[..]) < old(Unvisited(seen[..]))
         || (Unvisited(seen[..]) == old(Unvisited(seen[..])) && |queue'| < |queue0|)
  {
    ghost var vis0 := seen[..];
    ShiftedSplit(queue0, rest, p);
    assert forall i :: 0 <= i < |rest| ==> rest[i] == queue0[i + 1];
    queue', paths' := PushAround(base, rw, rh, seen, rest, paths, p);
    SettledStaysClosed(rw, rh, Complement(base), vis0, queue0, rest, seen[..], queue', p);
  }

  /** Every visited cell is still waiting in the queue. */
  ghost predicate AllQueued(vis: seq<bool>, queue: seq<int>) {
    forall k :: At(vis, k) ==> k in queue
  }

  lemma AllQueuedGrows(vis: seq<bool>, queue: seq<int>, vis': seq<bool>, queue': seq<int>)
    requires AllQueued(vis, queue) && Grows(vis, queue, vis', queue')
    ensures AllQueued(vis', queue')
  {
  }

  /** `for (i < rw) { enqueueIf(i, 0); enqueueIf(i, rh - 1); }` */
  method SeedRows(base: seq<bool>, rw: nat, rh: nat, seen: array<bool>, queue: seq<int>,
                  ghost paths: map<int, seq<int>>)
    returns (queue': seq<int>, ghost paths': map<int, seq<int>>)
    requires rw > 0 && |base| == rw * rh && seen.Length == rw * rh
    requires Witnessed(rw, rh, Complement(base), BorderCells(rw, rh), seen[..], paths)
    requires WorkVisited(seen[..], queue) && AllQueued(seen[..], queue)
    modifies seen
    ensures Witnessed(rw, rh, Complement(base), BorderCells(rw, rh), seen[..], paths')
    ensures WorkVisited(seen[..], queue') && AllQueued(seen[..], queue')
    ensures RowsCovered(rw, rh, Complement(base), seen[..], rw)
  {
    queue', paths' := queue, paths;
    for i := 0 to rw
      invariant Witnessed(rw, rh, Complement(base), BorderCells(rw, rh), seen[..], paths')
      invariant WorkVisited(seen[..], queue') && AllQueued(seen[..], queue')
      invariant RowsCovered(rw, rh, Complement(base), seen[..], i)
    {
      ghost var v0, q0 := seen[..], queue';
      queue', paths' := EnqueueTwo(base, rw, rh, seen, queue', paths', i, 0, i, rh - 1);
      SidesCoveredMono(rw, rh, Complement(base), v0, seen[..], i, 0);
      AllQueuedGrows(v0, q0, seen[..], queue');
    }
  }

  /** `for (j < rh) { enqueueIf(0, j); enqueueIf(rw - 1, j); }` */
  method SeedColumns(base: seq<bool>, rw: nat, rh: nat, seen: array<bool>, queue: seq<int>,
                     ghost paths: map<int, seq<int>>)
    returns (queue': seq<int>, ghost paths': map<int, seq<int>>)
    requires rw > 0 && |base| == rw * rh && seen.Length == rw * rh
    requires Witnessed(rw, rh, Complement(base), BorderCells(rw, rh), seen[..], paths)
    requires WorkVisited(seen[..], queue) && AllQueued(seen[..], queue)
    requires RowsCovered(rw, rh, Complement(base), seen[..], rw)
    modifies seen
    ensures Witnessed(rw, rh, Complement(base), BorderCells(rw, rh), seen[..], paths')
    ensures WorkVisited(seen[..], queue') && AllQueued(seen[..], queue')
    ensures RowsCovered(rw, rh, Complement(base), seen[..], rw)
    ensures ColumnsCovered(rw, rh, Complement(base), seen[..], rh)
  {
    queue', paths' := queue, paths;
    for j := 0 to rh
      invariant Witnessed(rw, rh, Complement(base), BorderCells(rw, rh), seen[..], paths')
      invariant WorkVisited(seen[..], queue') && AllQueued(seen[..], queue')
      invariant RowsCovered(rw, rh, Complement(base), seen[..], rw)
      invariant ColumnsCovered(rw, rh, Complement(base), seen[..], j)
    {
      ghost var v0, q0 := seen[..], queue';
      queue', paths' := EnqueueTwo(base, rw, rh, seen, queue', paths', 0, j, rw - 1, j);
      SidesCoveredMono(rw, rh, Complement(base), v0, seen[..], rw, j);
      AllQueuedGrows(v0, q0, seen[..], queue');
    }
  }

  /** The hole-filling flood: seed the queue with the box's border cells
      outside the base mask, then walk breadth-first through cells outside the
      mask. Afterwards `seen` marks exactly the cells reachable from the
      border without crossing the mask; every other cell is a hole. */
  method FloodFromBorder(base: seq<bool>, rw: nat, rh: nat) returns (seen: seq<bool>)
    requires rw > 0 && |base| == rw * rh
    ensures |seen| == rw * rh
    ensures forall k :: 0 <= k < |seen| ==>
      (seen[k] <==> Reaches(rw, rh, Complement(base), BorderCells(rw, rh), k))
  {
    ghost var allowed, border := Complement(base), BorderCells(rw, rh);
    var vis := new bool[rw * rh](_ => false);
    var q: seq<int> := [];
    ghost var paths: map<int, seq<int>> := map[];
    assert Witnessed(rw, rh, allowed, border, vis[..], paths);
    q, paths := SeedRows(base, rw, rh, vis, q, paths);
    q, paths := SeedColumns(base, rw, rh, vis, q, paths);

    while |q| > 0
      invariant Witnessed(rw, rh, allowed, border, vis[..], paths)
      invariant WorkVisited(vis[..], q)
      invariant RowsCovered(rw, rh, allowed, vis[..], rw) && ColumnsCovered(rw, rh, allowed, vis[..], rh)
      invariant forall k :: Settled(vis[..], q, k) ==> ClosedAt(rw, rh, allowed, vis[..], k)
      decreases Unvisited(vis[..]), |q|
    {
      ghost var q0 := q;
      var p := q[0];
      q := q[1..];
      ghost var v0 := vis[..];
      q, paths := ExpandCell(base, rw, rh, vis, q0, q, paths, p);
      SidesCoveredMono(rw, rh, allowed, v0, vis[..], rw, rh);
    }
    seen := vis[..];
    BorderCovered(rw, rh, allowed, seen);
    ExhaustedIsReachable(rw, rh, allowed, border, seen, paths);
  }

  // ---------------------------------------------------------------------
  // Classification

  /** `finalMask`: a cell is screen when it is in the base mask, or when it is
      a hole (not reached from the border) over a white frame pixel. */
  function FinalMask(img: Image, rx: int, ry: int, rw: nat, rh: nat, base: seq<bool>, seen: seq<bool>): seq<bool>
    requires rw > 0 && |base| == rw * rh && |seen| == rw * rh
  {
    seq(rw * rh, k requires 0 <= k < rw * rh =>
      base[k] || (!seen[k] && WhiteAt(img, FramePixel(img.width, rx, ry, rw, k))))
  }

  /** `holeDarkMask`: a hole over a frame pixel that is not white and not
      fully transparent. */
  function DarkMask(img: Image, rx: int, ry: int, rw: nat, rh: nat, base: seq<bool>, seen: seq<bool>): seq<bool>
    requires rw > 0 && |base| == rw * rh && |seen| == rw * rh
  {
    seq(rw * rh, k requires 0 <= k < rw * rh =>
      !base[k] && !seen[k] && !WhiteAt(img, FramePixel(img.width, rx, ry, rw, k))
      && AlphaAt(img, FramePixel(img.width, rx, ry, rw, k)) > 0)
  }

  /** The classification pass, row by row. */
  method Classify(img: Image, rx: int, ry: int, rw: nat, rh: nat, base: seq<bool>, seen: seq<bool>)
    returns (final: seq<bool>, dark: seq<bool>)
    requires rw > 0 && |base| == rw * rh && |seen| == rw * rh
    ensures final == FinalMask(img, rx, ry, rw, rh, base, seen)
    ensures dark == DarkMask(img, rx, ry, rw, rh, base, seen)
  {
    ghost var fm, dm := FinalMask(img, rx, ry, rw, rh, base, seen), DarkMask(img, rx, ry, rw, rh, base, seen);
    var finalMask := new bool[rw * rh](_ => false);
    var holeDarkMask := new bool[rw * rh](_ => false);
    for j := 0 to rh
      invariant j * rw <= rw * rh
      invariant forall k :: 0 <= k < j * rw ==> finalMask[k] == fm[k] && holeDarkMask[k] == dm[k]
      invariant forall k :: j * rw <= k < rw * rh ==> !holeDarkMask[k]
    {
      ClassifyRow(img, rx, ry, rw, rh, base, seen, fm, dm, finalMask, holeDarkMask, j);
    }
    final, dark := finalMask[..], holeDarkMask[..];
  }

  /** The inner loop of the classification: row j. */
  method ClassifyRow(img: Image, rx: int, ry: int, rw: nat, rh: nat, base: seq<bool>, seen: seq<bool>,
                     ghost fm: seq<bool>, ghost dm: seq<bool>,
                     finalMask: array<bool>, holeDarkMask: array<bool>, j: int)
    requires rw > 0 && |base| == rw * rh && |seen| == rw * rh && 0 <= j < rh
    requires fm == FinalMask(img, rx, ry, rw, rh, base, seen) && dm == DarkMask(img, rx, ry, rw, rh, base, seen)
    requires finalMask.Length == rw * rh && holeDarkMask.Length == rw * rh && finalMask != holeDarkMask
    requires forall k :: 0 <= k < j * rw ==> finalMask[k] == fm[k] && holeDarkMask[k] == dm[k]
    requires forall k :: j * rw <= k < rw * rh ==> !holeDarkMask[k]
    modifies finalMask, holeDarkMask
    ensures (j + 1) * rw <= rw * rh
    ensures forall k :: 0 <= k < (j + 1) * rw ==> finalMask[k] == fm[k] && holeDarkMask[k] == dm[k]
    ensures forall k :: (j + 1) * rw <= k < rw * rh ==> !holeDarkMask[k]
  {
    ghost var n := j * rw;
    assert (j + 1) * rw == j * rw + rw <= rw * rh;
    for i := 0 to rw
      invariant n == j * rw + i
      invariant forall k :: 0 <= k < n ==> finalMask[k] == fm[k] && holeDarkMask[k] == dm[k]
      invariant forall k :: n <= k < rw * rh ==> !holeDarkMask[k]
    {
      var k := j * rw + i;
      FrameCell(img.width, rx, ry, rw, rh, i, j);
      if base[k] {
        finalMask[k] := true;
      } else {
        var isHole := !seen[k];
        var gi := (ry + j) * img.width + (rx + i);
        var whiteish := WhiteAt(img, gi);
        if isHole {
          finalMask[k] := whiteish;
          holeDarkMask[k] := !whiteish && AlphaAt(img, gi) > 0;
        } else {
          finalMask[k] := false;
        }
      }
      n := n + 1;
    }
  }
}
