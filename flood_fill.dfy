/** The first stage of screen segmentation: a depth-first flood fill from the
    seed pixel through 4-connected white pixels of the frame, tracking the
    bounding box of what it visits. */
module FloodFill {
  import opened Raster
  import opened Grid

  /** Linear pixel p lies in the box [minX, maxX] × [minY, maxY]. */
  predicate InBox(w: int, p: int, minX: int, minY: int, maxX: int, maxY: int)
    requires w > 0
  {
    minX <= p % w <= maxX && minY <= p / w <= maxY
  }

  /** The box (minX, minY, maxX, maxY) holds every settled pixel, and each of
      its sides is attained by a visited pixel named in `at`. */
  ghost predicate BoxTracks(w: int, vis: seq<bool>, work: seq<int>,
                            box: (int, int, int, int), at: (int, int, int, int))
    requires w > 0
  {
    && (forall k :: Settled(vis, work, k) ==> InBox(w, k, box.0, box.1, box.2, box.3))
    && At(vis, at.0) && at.0 % w == box.0
    && At(vis, at.1) && at.1 / w == box.1
    && At(vis, at.2) && at.2 % w == box.2
    && At(vis, at.3) && at.3 / w == box.3
  }

  /** The box after widening box0 to take in pixel p. */
  ghost predicate Widened(w: int, p: int, box0: (int, int, int, int), at0: (int, int, int, int),
                          box: (int, int, int, int), at: (int, int, int, int))
    requires w > 0
  {
    && (if p % w < box0.0 then box.0 == p % w && at.0 == p else box.0 == box0.0 && at.0 == at0.0)
    && (if p / w < box0.1 then box.1 == p / w && at.1 == p else box.1 == box0.1 && at.1 == at0.1)
    && (if p % w > box0.2 then box.2 == p % w && at.2 == p else box.2 == box0.2 && at.2 == at0.2)
    && (if p / w > box0.3 then box.3 == p / w && at.3 == p else box.3 == box0.3 && at.3 == at0.3)
  }

  /** Popping p off work0 (leaving rest), widening the box to p and pushing
      its neighbours keeps the box tracking the settled pixels. */
  lemma BoxStep(w: int, vis0: seq<bool>, work0: seq<int>, rest: seq<int>, vis: seq<bool>, work: seq<int>,
                p: int, box0: (int, int, int, int), at0: (int, int, int, int),
                box: (int, int, int, int), at: (int, int, int, int))
    requires w > 0 && At(vis0, p)
    requires Popped(work0, rest, p)
    requires BoxTracks(w, vis0, work0, box0, at0) && Grows(vis0, rest, vis, work)
    requires Widened(w, p, box0, at0, box, at)
    ensures BoxTracks(w, vis, work, box, at)
  {
    PoppedSplit(work0, rest, p);
    forall k | Settled(vis, work, k)
      ensures InBox(w, k, box.0, box.1, box.2, box.3)
    {
      if k != p {
        assert Settled(vis0, work0, k);
      }
    }
  }

  /** Once the stack is empty, the visited pixels are exactly the region
      reachable from the seed. */
  lemma FillRegion(w: int, h: int, allowed: seq<bool>, seed: int, visited: seq<bool>, paths: map<int, seq<int>>)
    requires At(visited, seed) && Witnessed(w, h, allowed, {seed}, visited, paths)
    requires forall p :: Settled(visited, [], p) ==> ClosedAt(w, h, allowed, visited, p)
    ensures forall p :: 0 <= p < |visited| ==> (visited[p] <==> Reaches(w, h, allowed, {seed}, p))
  {
    ExhaustedIsReachable(w, h, allowed, {seed}, visited, paths);
  }

  /** Once the work list is empty, every visited pixel is settled: the box
      holds them all and each side is attained by one of them. */
  lemma SettledAllInBox(w: int, vis: seq<bool>, box: (int, int, int, int), at: (int, int, int, int))
    requires w > 0 && BoxTracks(w, vis, [], box, at)
    ensures forall k :: 0 <= k < |vis| && vis[k] ==> InBox(w, k, box.0, box.1, box.2, box.3)
    ensures exists k :: 0 <= k < |vis| && vis[k] && k % w == box.0
    ensures exists k :: 0 <= k < |vis| && vis[k] && k % w == box.2
    ensures exists k :: 0 <= k < |vis| && vis[k] && k / w == box.1
    ensures exists k :: 0 <= k < |vis| && vis[k] && k / w == box.3
  {
    assert forall k :: 0 <= k < |vis| && vis[k] ==> Settled(vis, [], k);
  }

  /** The `tryPush` step: push neighbour (nx, ny) when it is inside the frame,
      not yet visited and white, marking it visited. The ghost map extends the
      path of the popped pixel p to the pushed one. */
  method TryPush(img: Image, vis: array<bool>, stack: seq<int>,
                 ghost sources: set<int>, ghost paths: map<int, seq<int>>, ghost p: int,
                 nx: int, ny: int)
    returns (stack': seq<int>, ghost paths': map<int, seq<int>>)
    requires img.Valid() && img.width > 0 && vis.Length == img.Size()
    requires Witnessed(img.width, img.height, WhiteMap(img), sources, vis[..], paths)
    requires 0 <= p < vis.Length && vis[p]
    requires IsNeighbourOf(img.width, p, nx, ny)
    modifies vis
    ensures Witnessed(img.width, img.height, WhiteMap(img), sources, vis[..], paths')
    ensures Covered(img.width, img.height, WhiteMap(img), vis[..], nx, ny)
    ensures (vis[..] == old(vis[..]) && stack' == stack)
         || (exists q :: 0 <= q < vis.Length && !old(vis[q]) && vis[..] == old(vis[..])[q := true] && stack' == stack + [q])
  {
    var w, h := img.width, img.height;
    stack', paths' := stack, paths;
    if nx < 0 || ny < 0 || nx >= w || ny >= h {
      return;
    }
    var pos := ny * w + nx;
    PosInRange(w, h, nx, ny);
    if vis[pos] {
      return;
    }
    var i := pos * 4;
    if IsWhitePixel(img.data[i], img.data[i + 1], img.data[i + 2], img.data[i + 3]) {
      NeighbourAdjacent(w, h, p, nx, ny);
      WitnessStep(w, h, WhiteMap(img), sources, vis[..], paths, p, pos);
      vis[pos] := true;
      paths' := paths[pos := paths[p] + [pos]];
      stack' := stack + [pos];
    }
  }

  /** Two consecutive `tryPush` calls for neighbours (x1, y1) and (x2, y2) of the popped pixel p. */
  method TryPushTwo(img: Image, vis: array<bool>, stack: seq<int>,
                    ghost sources: set<int>, ghost paths: map<int, seq<int>>, p: int,
                    x1: int, y1: int, x2: int, y2: int)
    returns (stack': seq<int>, ghost paths': map<int, seq<int>>)
    requires img.Valid() && img.width > 0 && vis.Length == img.Size()
    requires Witnessed(img.width, img.height, WhiteMap(img), sources, vis[..], paths)
    requires 0 <= p < vis.Length && vis[p] && WorkVisited(vis[..], stack)
    requires IsNeighbourOf(img.width, p, x1, y1)
    requires IsNeighbourOf(img.width, p, x2, y2)
    modifies vis
    ensures Witnessed(img.width, img.height, WhiteMap(img), sources, vis[..], paths')
    ensures Covered(img.width, img.height, WhiteMap(img), vis[..], x1, y1)
    ensures Covered(img.width, img.height, WhiteMap(img), vis[..], x2, y2)
    ensures Grows(old(vis[..]), stack, vis[..], stack') && WorkVisited(vis[..], stack')
    ensures Progress(old(vis[..]), stack, vis[..], stack')
  {
    ghost var v0, s0 := vis[..], stack;
    stack', paths' := TryPush(img, vis, stack, sources, paths, p, x1, y1);
    ghost var v1, s1 := vis[..], stack';
    PushGrows(v0, s0, v1, s1);
    stack', paths' := TryPush(img, vis, stack', sources, paths', p, x2, y2);
    ghost var v2, s2 := vis[..], stack';
    PushGrows(v1, s1, v2, s2);
    GrowsTrans(v0, s0, v1, s1, v2, s2);
    ProgressTrans(v0, s0, v1, s1, v2, s2);
    CoveredMono(img.width, img.height, WhiteMap(img), v1, v2, x1, y1);
  }

  /** The four `tryPush` calls made for a popped pixel p (left, right, up,
      down): afterwards every white neighbour of p is visited. */
  method PushNeighbours(img: Image, vis: array<bool>, stack: seq<int>,
                        ghost sources: set<int>, ghost paths: map<int, seq<int>>, p: int)
    returns (stack': seq<int>, ghost paths': map<int, seq<int>>)
    requires img.Valid() && img.width > 0 && vis.Length == img.Size()
    requires Witnessed(img.width, img.height, WhiteMap(img), sources, vis[..], paths)
    requires 0 <= p < vis.Length && vis[p] && WorkVisited(vis[..], stack)
    modifies vis
    ensures Witnessed(img.width, img.height, WhiteMap(img), sources, vis[..], paths')
    ensures ClosedAt(img.width, img.height, WhiteMap(img), vis[..], p)
    ensures Grows(old(vis[..]), stack, vis[..], stack') && WorkVisited(vis[..], stack')
    ensures Progress(old(vis[..]), stack, vis[..], stack')
  {
    var w, h := img.width, img.height;
    var px, py := p % w, p / w;
    ghost var v0, s0 := vis[..], stack;
    stack', paths' := TryPushTwo(img, vis, stack, sources, paths, p, px - 1, py, px + 1, py);
    ghost var v1, s1 := vis[..], stack';
    assert At(v0, p) && At(v1, p);
    stack', paths' := TryPushTwo(img, vis, stack', sources, paths', p, px, py - 1, px, py + 1);
    ghost var v2, s2 := vis[..], stack';
    GrowsTrans(v0, s0, v1, s1, v2, s2);
    ProgressTrans(v0, s0, v1, s1, v2, s2);
    CoveredMono(w, h, WhiteMap(img), v1, v2, px - 1, py);
    CoveredMono(w, h, WhiteMap(img), v1, v2, px + 1, py);
  }

  /** Pushing the neighbours of the pixel p just popped off stack0 (leaving
      rest): every pixel that is visited and off the stack stays closed, and
      either fewer pixels are unvisited or the stack is shorter. */
  method Expand(img: Image, vis: array<bool>, ghost stack0: seq<int>, rest: seq<int>,
                ghost sources: set<int>, ghost paths: map<int, seq<int>>, p: int)
    returns (stack': seq<int>, ghost paths': map<int, seq<int>>)
    requires img.Valid() && img.width > 0 && vis.Length == img.Size()
    requires Witnessed(img.width, img.height, WhiteMap(img), sources, vis[..], paths)
    requires Popped(stack0, rest, p) && 0 <= p < vis.Length && WorkVisited(vis[..], stack0)
    requires forall k :: Settled(vis[..], stack0, k) ==> ClosedAt(img.width, img.height, WhiteMap(img), vis[..], k)
    modifies vis
    ensures Witnessed(img.width, img.height, WhiteMap(img), sources, vis[..], paths')
    ensures Grows(old(vis[..]), rest, vis[..], stack') && WorkVisited(vis[..], stack')
    ensures forall k :: Settled(vis[..], stack', k) ==> ClosedAt(img.width, img.height, WhiteMap(img), vis[..], k)
    ensures Unvisited(vis[..]) < old(Unvisited(vis[..]))
         || (Unvisited(vis[..]) == old(Unvisited(vis[..])) && |stack'| < |stack0|)
  {
    ghost var vis0 := vis[..];
    PoppedSplit(stack0, rest, p);
    assert forall i :: 0 <= i < |rest| ==> rest[i] == stack0[i];
    stack', paths' := PushNeighbours(img, vis, rest, sources, paths, p);
    SettledStaysClosed(img.width, img.height, WhiteMap(img), vis0, stack0, rest, vis[..], stack', p);
  }

  /** Flood fill from (sx, sy). The result marks exactly the pixels reachable
      from the seed through white 4-neighbours, and (minX, minY)–(maxX, maxY)
      is their tight bounding box. */
  method Fill(img: Image, sx: int, sy: int)
    returns (visited: seq<bool>, minX: int, minY: int, maxX: int, maxY: int)
    requires img.Valid() && InGrid(img.width, img.height, sx, sy)
    requires WhiteAt(img, Pos(img.width, sx, sy))
    ensures |visited| == img.Size()
    ensures forall p :: 0 <= p < |visited| ==>
      (visited[p] <==> Reaches(img.width, img.height, WhiteMap(img), {Pos(img.width, sx, sy)}, p))
    ensures 0 <= minX <= sx <= maxX < img.width && 0 <= minY <= sy <= maxY < img.height
    ensures forall p :: 0 <= p < |visited| && visited[p] ==> InBox(img.width, p, minX, minY, maxX, maxY)
    ensures exists p :: 0 <= p < |visited| && visited[p] && p % img.width == minX
    ensures exists p :: 0 <= p < |visited| && visited[p] && p % img.width == maxX
    ensures exists p :: 0 <= p < |visited| && visited[p] && p / img.width == minY
    ensures exists p :: 0 <= p < |visited| && visited[p] && p / img.width == maxY
  {
    var w, h := img.width, img.height;
    ghost var allowed := WhiteMap(img);
    var seed := sy * w + sx;
    PosInRange(w, h, sx, sy);
    PosDecode(w, sx, sy);
    ghost var sources := {Pos(w, sx, sy)};

    var vis := new bool[w * h](_ => false);
    assert Witnessed(w, h, allowed, sources, vis[..], map[]);
    WitnessSource(w, h, allowed, sources, vis[..], map[], seed);
    vis[seed] := true;
    ghost var paths: map<int, seq<int>> := map[seed := [seed]];
    var stack := [seed];
    minX, minY, maxX, maxY := sx, sy, sx, sy;
    ghost var at := (seed, seed, seed, seed);

    while |stack| > 0
      invariant vis.Length == w * h
      invariant WorkVisited(vis[..], stack)
      invariant At(vis[..], seed)
      invariant Witnessed(w, h, allowed, sources, vis[..], paths)
      invariant forall p :: Settled(vis[..], stack, p) ==> ClosedAt(w, h, allowed, vis[..], p)
      invariant 0 <= minX <= sx <= maxX < w && 0 <= minY <= sy <= maxY < h
      invariant BoxTracks(w, vis[..], stack, (minX, minY, maxX, maxY), at)
      decreases Unvisited(vis[..]), |stack|
    {
      ghost var vis0, stack0 := vis[..], stack;
      ghost var box0, at0 := (minX, minY, maxX, maxY), at;
      var p := stack[|stack| - 1];
      stack := stack[..|stack| - 1];
      ghost var rest := stack;
      var py := p / w;
      var px := p % w;
      IndexInGrid(w, h, p);
      if px < minX { minX, at := px, at.(0 := p); }
      if px > maxX { maxX, at := px, at.(2 := p); }
      if py < minY { minY, at := py, at.(1 := p); }
      if py > maxY { maxY, at := py, at.(3 := p); }

      stack, paths := Expand(img, vis, stack0, stack, sources, paths, p);
      BoxStep(w, vis0, stack0, rest, vis[..], stack, p, box0, at0, (minX, minY, maxX, maxY), at);
    }

    assert stack == [];
    visited := vis[..];
    FillRegion(w, h, allowed, seed, visited, paths);
    SettledAllInBox(w, visited, (minX, minY, maxX, maxY), at);
  }
}
