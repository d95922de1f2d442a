/** Choosing the flood-fill seed near a click: the clicked pixel itself when it
    is white, otherwise the first white pixel met while walking diamond rings
    of growing Manhattan radius around it. */
module SeedSearch {
  import opened Raster
  import opened JsNumber

  /** Manhattan distance from the click (x, y) to (qx, qy). */
  function Dist(x: int, y: int, qx: int, qy: int): nat { Abs(qx - x) + Abs(qy - y) }

  /** (qx, qy) is inside the frame and white: a pixel the fill may start from. */
  predicate IsSeed(img: Image, qx: int, qy: int) {
    InGrid(img.width, img.height, qx, qy) && WhiteAt(img, Pos(img.width, qx, qy))
  }

  /** The order in which the ring walk meets candidates: nearer rings first,
      within a ring upper rows first, within a row the left point first. */
  predicate MetNoLaterThan(x: int, y: int, px: int, py: int, qx: int, qy: int) {
    || Dist(x, y, px, py) < Dist(x, y, qx, qy)
    || (Dist(x, y, px, py) == Dist(x, y, qx, qy) && (py < qy || (py == qy && px <= qx)))
  }

  /** No seed lies at Manhattan distance 1..maxR from the click. */
  ghost predicate NoSeedWithin(img: Image, x: int, y: int, maxR: int) {
    forall qx, qy :: IsSeed(img, qx, qy) ==> Dist(x, y, qx, qy) > maxR
  }

  /** Every seed is at distance r or more, and those at distance r lie in
      row y + dy or below. */
  ghost predicate RingClearAbove(img: Image, x: int, y: int, r: int, dy: int) {
    forall qx, qy :: IsSeed(img, qx, qy) ==>
      Dist(x, y, qx, qy) >= r && (Dist(x, y, qx, qy) == r ==> qy - y >= dy)
  }

  /** Row y + dy of ring r has at most the two points at horizontal offset
      r - |dy|; when neither is a seed, the ring is clear through that row. */
  lemma RowChecked(img: Image, x: int, y: int, r: int, dy: int)
    requires -r <= dy <= r && RingClearAbove(img, x, y, r, dy)
    requires !IsSeed(img, x - (r - Abs(dy)), y + dy) && !IsSeed(img, x + (r - Abs(dy)), y + dy)
    ensures RingClearAbove(img, x, y, r, dy + 1)
  {
    forall qx, qy | IsSeed(img, qx, qy) && Dist(x, y, qx, qy) == r
      ensures qy - y >= dy + 1
    {
      if qy - y == dy {
        assert false;
      }
    }
  }

  /** `findNearestWhite`. The clicked pixel is tested by its linear index
      without a bounds check, exactly as the buffer is read; ring candidates
      outside the frame are skipped. */
  method FindNearestWhite(img: Image, x: int, y: int, maxR: int) returns (seed: Option<(int, int)>)
    ensures WhiteAt(img, Pos(img.width, x, y)) ==> seed == Some((x, y))
    ensures !WhiteAt(img, Pos(img.width, x, y)) ==> (seed.None? <==> NoSeedWithin(img, x, y, maxR))
    ensures !WhiteAt(img, Pos(img.width, x, y)) && seed.Some? ==>
      var (px, py) := seed.value;
      && IsSeed(img, px, py) && 1 <= Dist(x, y, px, py) <= maxR
      && forall qx, qy :: IsSeed(img, qx, qy) ==> MetNoLaterThan(x, y, px, py, qx, qy)
  {
    var w, h := img.width, img.height;
    if WhiteAt(img, y * w + x) {
      return Some((x, y));
    }
    var r := 1;
    while r <= maxR
      invariant 1 <= r
      invariant forall qx, qy :: IsSeed(img, qx, qy) ==> Dist(x, y, qx, qy) >= r
    {
      var dy := -r;
      while dy <= r
        invariant -r <= dy <= r + 1
        invariant RingClearAbove(img, x, y, r, dy)
      {
        var dx := r - Abs(dy);
        var px, py := x - dx, y + dy;
        if !(px < 0 || py < 0 || px >= w || py >= h) && WhiteAt(img, py * w + px) {
          assert IsSeed(img, px, py) && Dist(x, y, px, py) == r;
          return Some((px, py));
        }
        px := x + dx;
        if !(px < 0 || py < 0 || px >= w || py >= h) && WhiteAt(img, py * w + px) {
          assert IsSeed(img, px, py) && Dist(x, y, px, py) == r;
          return Some((px, py));
        }
        RowChecked(img, x, y, r, dy);
        dy := dy + 1;
      }
      r := r + 1;
    }
    return None;
  }
}
