/** A click on the frame turned into a screen region: the seed search, the
    depth-first flood of the white region around the seed, its bounding box,
    the base mask, the border flood and the classification, chained as the
    overlay click handler chains them. */
module Segmentation {
  import opened Raster
  import opened Grid
  import opened SeedSearch
  import opened FloodFill
  import opened HoleFill

  /** How far (Manhattan distance) from the click a seed is searched for. */
  const SeedRadius := 6

  /** A detected screen, as kept per device slot: its bounding box in frame
      pixels, the screen mask (`finalMask`) and the dark-island mask
      (`holeDarkMask`), both rw × rh and row-major. */
  datatype Region = Region(rx: int, ry: int, rw: nat, rh: nat, mask: seq<bool>, dark: seq<bool>)

  /** A box side length as `Math.max(1, hi - lo + 1)`. */
  function Extent(lo: int, hi: int): (n: nat)
    ensures n >= 1
    ensures lo <= hi ==> n == hi - lo + 1
  {
    if hi - lo + 1 < 1 then 1 else hi - lo + 1
  }

  /** The white region of the seed: pixel p belongs to it iff a path of white
      4-neighbours leads from the seed to p. */
  ghost function SeedRegion(img: Image, sx: int, sy: int): seq<bool> {
    seq(img.Size(), p => Reaches(img.width, img.height, WhiteMap(img), {Pos(img.width, sx, sy)}, p))
  }

  /** Cells of an rw × rh box reachable from the box border without entering
      the base mask; every other cell is enclosed. */
  ghost function OpenCells(base: seq<bool>, rw: nat, rh: nat): seq<bool> {
    seq(|base|, k => Reaches(rw, rh, Complement(base), BorderCells(rw, rh), k))
  }

  /** (rx, ry, rw, rh) is the tight bounding box of the pixels set in `region`. */
  ghost predicate TightBox(w: int, region: seq<bool>, rx: int, ry: int, rw: int, rh: int)
    requires w > 0
  {
    && (forall p :: 0 <= p < |region| && region[p] ==> InBox(w, p, rx, ry, rx + rw - 1, ry + rh - 1))
    && (exists p :: 0 <= p < |region| && region[p] && p % w == rx)
    && (exists p :: 0 <= p < |region| && region[p] && p % w == rx + rw - 1)
    && (exists p :: 0 <= p < |region| && region[p] && p / w == ry)
    && (exists p :: 0 <= p < |region| && region[p] && p / w == ry + rh - 1)
  }

  /** r is the region segmented from seed (sx, sy): its box is the tight box of
      the seed's white region, its base mask is that region cropped to the
      box, and its masks classify the cells the border flood cannot reach. */
  ghost predicate SegmentOf(img: Image, sx: int, sy: int, r: Region) {
    && img.width > 0 && r.rw > 0
    && 0 <= r.rx <= sx < r.rx + r.rw <= img.width
    && 0 <= r.ry <= sy < r.ry + r.rh <= img.height
    && TightBox(img.width, SeedRegion(img, sx, sy), r.rx, r.ry, r.rw, r.rh)
    && var base := Crop(SeedRegion(img, sx, sy), img.width, r.rx, r.ry, r.rw, r.rh);
       && r.mask == FinalMask(img, r.rx, r.ry, r.rw, r.rh, base, OpenCells(base, r.rw, r.rh))
       && r.dark == DarkMask(img, r.rx, r.ry, r.rw, r.rh, base, OpenCells(base, r.rw, r.rh))
  }

  /** The segmentation part of the overlay click: no seed near the click means
      no region; otherwise the region segmented from the seed found. */
  method Segment(img: Image, x: int, y: int) returns (seed: Option<(int, int)>, r: Option<Region>)
    requires img.Valid() && InGrid(img.width, img.height, x, y)
    ensures WhiteAt(img, Pos(img.width, x, y)) ==> seed == Some((x, y))
    ensures !WhiteAt(img, Pos(img.width, x, y)) ==> (seed.None? <==> NoSeedWithin(img, x, y, SeedRadius))
    ensures seed.Some? ==> IsSeed(img, seed.value.0, seed.value.1) && Dist(x, y, seed.value.0, seed.value.1) <= SeedRadius
    ensures r.Some? <==> seed.Some?
    ensures seed.Some? ==> SegmentOf(img, seed.value.0, seed.value.1, r.value)
  {
    seed := FindNearestWhite(img, x, y, SeedRadius);
    if seed.None? {
      return seed, None;
    }
    var sx, sy := seed.value.0, seed.value.1;
    var visited, minX, minY, maxX, maxY := Fill(img, sx, sy);
    var rw, rh := Extent(minX, maxX), Extent(minY, maxY);
    var base := BuildBaseMask(visited, img.width, minX, minY, rw, rh);
    var seen := FloodFromBorder(base, rw, rh);
    var final, dark := Classify(img, minX, minY, rw, rh, base, seen);
    assert visited == SeedRegion(img, sx, sy);
    assert seen == OpenCells(base, rw, rh);
    r := Some(Region(minX, minY, rw, rh, final, dark));
  }

  /** Every screen cell lies over a white frame pixel, and every dark cell over
      a frame pixel that is outside the seed region, not white and not fully
      transparent; so no cell is both. */
  lemma MaskIsWhite(img: Image, sx: int, sy: int, r: Region)
    requires SegmentOf(img, sx, sy, r)
    ensures forall k :: 0 <= k < |r.mask| && r.mask[k] ==>
      WhiteAt(img, FramePixel(img.width, r.rx, r.ry, r.rw, k))
    ensures forall k :: 0 <= k < |r.dark| && r.dark[k] ==>
      var q := FramePixel(img.width, r.rx, r.ry, r.rw, k);
      !WhiteAt(img, q) && AlphaAt(img, q) > 0 && !At(SeedRegion(img, sx, sy), q)
  {
    var region := SeedRegion(img, sx, sy);
    forall k | 0 <= k < |r.mask| && r.mask[k]
      ensures WhiteAt(img, FramePixel(img.width, r.rx, r.ry, r.rw, k))
    {
      var q := FramePixel(img.width, r.rx, r.ry, r.rw, k);
      if At(region, q) {
        ReachesAllowed(img.width, img.height, WhiteMap(img), {Pos(img.width, sx, sy)}, q);
      }
    }
  }

  /** The whole white region of the seed lies inside the box and is screen in
      the mask, at its place relative to the box corner. */
  lemma MaskCoversSeedRegion(img: Image, sx: int, sy: int, r: Region)
    requires SegmentOf(img, sx, sy, r)
    ensures forall p :: 0 <= p < |SeedRegion(img, sx, sy)| && SeedRegion(img, sx, sy)[p] ==>
      InGrid(r.rw, r.rh, p % img.width - r.rx, p / img.width - r.ry)
      && At(r.mask, Pos(r.rw, p % img.width - r.rx, p / img.width - r.ry))
  {
    var region := SeedRegion(img, sx, sy);
    var base := Crop(region, img.width, r.rx, r.ry, r.rw, r.rh);
    forall p | 0 <= p < |region| && region[p]
      ensures InGrid(r.rw, r.rh, p % img.width - r.rx, p / img.width - r.ry)
      ensures At(base, Pos(r.rw, p % img.width - r.rx, p / img.width - r.ry))
    {
      CropCovers(img.width, img.height, region, r.rx, r.ry, r.rw, r.rh, p);
    }
  }

  /** A region pixel inside the box is set in the cropped mask. */
  lemma CropCovers(w: int, h: int, region: seq<bool>, rx: int, ry: int, rw: nat, rh: nat, p: int)
    requires w > 0 && rw > 0 && |region| == w * h && 0 <= p < |region| && region[p]
    requires InBox(w, p, rx, ry, rx + rw - 1, ry + rh - 1)
    ensures InGrid(rw, rh, p % w - rx, p / w - ry)
    ensures At(Crop(region, w, rx, ry, rw, rh), Pos(rw, p % w - rx, p / w - ry))
  {
    var i, j := p % w - rx, p / w - ry;
    IndexInGrid(w, h, p);
    CropCell(region, w, rx, ry, rw, rh, i, j);
  }

  /** Along the border of the box the mask is exactly the seed region and
      there are no dark cells: a border cell outside the region is where the
      border flood starts, so it is never a hole. */
  lemma BorderCellsNotHoles(img: Image, sx: int, sy: int, r: Region)
    requires SegmentOf(img, sx, sy, r)
    ensures forall k :: 0 <= k < |r.mask| && OnBorder(r.rw, r.rh, k) ==>
      (r.mask[k] <==> At(SeedRegion(img, sx, sy), FramePixel(img.width, r.rx, r.ry, r.rw, k)))
    ensures forall k :: 0 <= k < |r.dark| && OnBorder(r.rw, r.rh, k) ==> !r.dark[k]
  {
    var base := Crop(SeedRegion(img, sx, sy), img.width, r.rx, r.ry, r.rw, r.rh);
    var open := OpenCells(base, r.rw, r.rh);
    forall k | 0 <= k < |base| && OnBorder(r.rw, r.rh, k) && !base[k]
      ensures open[k]
    {
      assert k in BorderCells(r.rw, r.rh);
      assert IsPath(r.rw, r.rh, Complement(base), [k]);
    }
  }

  /** `newRect`: the box as fractions of the frame size. */
  datatype ScreenRectPct = ScreenRectPct(xPct: real, yPct: real, wPct: real, hPct: real)

  function RectOf(w: nat, h: nat, rx: int, ry: int, rw: int, rh: int): ScreenRectPct
    requires w > 0 && h > 0
  {
    ScreenRectPct(rx as real / w as real, ry as real / h as real, rw as real / w as real, rh as real / h as real)
  }

  /** Scaling the fractions back by the frame size recovers the box, and a box
      inside the frame has its fractions inside the unit square. */
  lemma RectOfRoundTrip(w: nat, h: nat, rx: int, ry: int, rw: int, rh: int)
    requires w > 0 && h > 0
    ensures var rect := RectOf(w, h, rx, ry, rw, rh);
      && rect.xPct * w as real == rx as real && rect.yPct * h as real == ry as real
      && rect.wPct * w as real == rw as real && rect.hPct * h as real == rh as real
    ensures 0 <= rx && 0 < rw && rx + rw <= w ==>
      0.0 <= RectOf(w, h, rx, ry, rw, rh).xPct && 0.0 < RectOf(w, h, rx, ry, rw, rh).wPct
      && RectOf(w, h, rx, ry, rw, rh).xPct + RectOf(w, h, rx, ry, rw, rh).wPct <= 1.0
    ensures 0 <= ry && 0 < rh && ry + rh <= h ==>
      0.0 <= RectOf(w, h, rx, ry, rw, rh).yPct && 0.0 < RectOf(w, h, rx, ry, rw, rh).hPct
      && RectOf(w, h, rx, ry, rw, rh).yPct + RectOf(w, h, rx, ry, rw, rh).hPct <= 1.0
  {
    SpanFraction(w, rx, rw);
    SpanFraction(h, ry, rh);
  }

  /** One axis of the rectangle: offset a and length n over a side of size s. */
  lemma SpanFraction(s: nat, a: int, n: int)
    requires s > 0
    ensures (a as real / s as real) * s as real == a as real
    ensures (n as real / s as real) * s as real == n as real
    ensures 0 <= a && 0 < n && a + n <= s ==>
      0.0 <= a as real / s as real && 0.0 < n as real / s as real
      && a as real / s as real + n as real / s as real <= 1.0
  {
    var sr := s as real;
    assert a as real / sr + n as real / sr == (a + n) as real / sr;
    if 0 <= a && 0 < n && a + n <= s {
      assert (a + n) as real / sr <= sr / sr;
    }
  }
}
