/** Raster surfaces as the browser's ImageData exposes them: a width, a height
    and a flat, row-major buffer of RGBA channel bytes (four per pixel).
    Pixel (x, y) has linear index y * width + x; its channels start at four
    times that index. */
module Raster {

  datatype Option<T> = None | Some(value: T)

  datatype Image = Image(width: nat, height: nat, data: seq<int>) {

    /** Number of pixels. */
    function Size(): nat { width * height }

    /** A well-formed ImageData buffer: 4 bytes per pixel, each in 0..255. */
    predicate Valid() {
      && |data| == 4 * Size()
      && forall i :: 0 <= i < |data| ==> 0 <= data[i] <= 255
    }
  }

  /** Linear index of pixel (x, y) in a raster of width w. */
  function Pos(w: int, x: int, y: int): int { y * w + x }

  predicate InGrid(w: int, h: int, x: int, y: int) { 0 <= x < w && 0 <= y < h }

  /** Reading a boolean buffer the way a typed array is read in a test:
      an index outside the buffer reads as 0 (false). */
  function At(s: seq<bool>, k: int): bool { 0 <= k < |s| && s[k] }

  // ---------------------------------------------------------------------
  // Whiteness and luminance

  /** The segmenter's whiteness test: opaque enough and bright in every channel. */
  predicate IsWhitePixel(r: int, g: int, b: int, a: int) {
    a > 200 && r >= 240 && g >= 240 && b >= 240
  }

  /** True iff linear pixel p exists and passes the whiteness test. */
  predicate WhiteAt(img: Image, p: int) {
    0 <= p && 4 * p + 3 < |img.data| &&
    IsWhitePixel(img.data[4 * p], img.data[4 * p + 1], img.data[4 * p + 2], img.data[4 * p + 3])
  }

  /** Alpha channel of pixel p (0 outside the buffer). */
  function AlphaAt(img: Image, p: int): int {
    if 0 <= p && 4 * p + 3 < |img.data| then img.data[4 * p + 3] else 0
  }

  /** The whiteness of every pixel, as the mask the first flood may walk on. */
  function WhiteMap(img: Image): (m: seq<bool>)
    ensures |m| == img.Size()
    ensures forall p :: 0 <= p < |m| ==> (m[p] <==> WhiteAt(img, p))
  {
    seq(img.Size(), p => WhiteAt(img, p))
  }

  /** Luminance 0.299 R + 0.587 G + 0.114 B, scaled by 1000 so that it is an
      exact integer: `lum < t` in the source is `Lum1000 < 1000 t` here. */
  function Lum1000(r: int, g: int, b: int): int { 299 * r + 587 * g + 114 * b }

  /** Luminance of linear pixel p, or None where JavaScript reads `undefined`
      and the luminance is NaN (every comparison with NaN is false). */
  function LumAt(img: Image, p: int): Option<int> {
    if 0 <= p && 4 * p + 2 < |img.data|
    then Some(Lum1000(img.data[4 * p], img.data[4 * p + 1], img.data[4 * p + 2]))
    else None
  }

  /** R + G + B of linear pixel p, or None (NaN) outside the buffer; the
      source's average (R + G + B) / 3 > t is RgbSum > 3 t. */
  function RgbSumAt(img: Image, p: int): Option<int> {
    if 0 <= p && 4 * p + 2 < |img.data|
    then Some(img.data[4 * p] + img.data[4 * p + 1] + img.data[4 * p + 2])
    else None
  }

  // ---------------------------------------------------------------------
  // Index arithmetic

  lemma MulBound(d: int, w: int)
    requires w > 0 && -w < d * w < w
    ensures d == 0
  {
  }

  /** Euclidean division is unique: this is what makes `Math.floor(p / w)` and
      `p % w` recover the coordinates of a linear index. */
  lemma DivModUnique(n: int, w: int, q: int, r: int)
    requires w > 0 && 0 <= r < w && n == q * w + r
    ensures n / w == q && n % w == r
  {
    var q', r' := n / w, n % w;
    assert n == q' * w + r';
    assert (q - q') * w == r' - r;
    MulBound(q - q', w);
  }

  lemma PosDecode(w: int, x: int, y: int)
    requires 0 <= x < w
    ensures Pos(w, x, y) / w == y && Pos(w, x, y) % w == x
  {
    DivModUnique(Pos(w, x, y), w, y, x);
  }

  lemma PosInRange(w: int, h: int, x: int, y: int)
    requires InGrid(w, h, x, y)
    ensures 0 <= Pos(w, x, y) < w * h
  {
    assert y * w <= (h - 1) * w;
    assert (h - 1) * w == w * h - w;
  }

  /** A linear index below w * h decodes to a pixel inside the grid. */
  lemma IndexInGrid(w: int, h: int, p: int)
    requires w > 0 && 0 <= p < w * h
    ensures InGrid(w, h, p % w, p / w) && Pos(w, p % w, p / w) == p
  {
    var y := p / w;
    assert p == y * w + p % w;
  }
}
