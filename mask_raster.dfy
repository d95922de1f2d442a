/** The pixel loops that turn a segmented region into images: the black and
    white mask image handed to CSS masking, the dark overlay copied from the
    frame, and the tinted selection painted into the overlay canvas. */
module MaskRaster {
  import opened Raster
  import opened HoleFill
  import opened Segmentation
  import opened DeviceColors

  /** Byte n of a buffer; an index outside it reads as `undefined`, which a
      pixel buffer stores as 0. */
  function ByteAt(d: seq<int>, n: int): int {
    if 0 <= n < |d| then d[n] else 0
  }

  // ---------------------------------------------------------------------
  // The mask image

  /** The RGBA bytes `maskToDataUrl` writes: opaque white where the mask is
      set, opaque black elsewhere. */
  function MaskRgba(mask: seq<bool>): (d: seq<int>)
    ensures |d| == 4 * |mask|
  {
    seq(4 * |mask|, n requires 0 <= n < 4 * |mask| =>
      if n % 4 == 3 then 255 else if mask[n / 4] then 255 else 0)
  }

  /** Reading a mask back from such an image: a pixel is set iff it is white. */
  function RgbaMask(d: seq<int>): (m: seq<bool>)
    ensures |m| == |d| / 4
  {
    seq(|d| / 4, k requires 0 <= k < |d| / 4 => d[4 * k] == 255)
  }

  /** The mask image loses nothing: the mask can be read back from it, and
      every pixel is opaque and grey-level 0 or 255. */
  lemma {:induction false} MaskRgbaRoundTrip(mask: seq<bool>)
    ensures RgbaMask(MaskRgba(mask)) == mask
    ensures forall k :: 0 <= k < |mask| ==>
      var d := MaskRgba(mask);
      && d[4 * k + 3] == 255 && d[4 * k] == d[4 * k + 1] == d[4 * k + 2]
      && (d[4 * k] == 255 || d[4 * k] == 0)
  {
    var d := MaskRgba(mask);
    forall k | 0 <= k < |mask|
      ensures d[4 * k] == (if mask[k] then 255 else 0)
      ensures d[4 * k + 1] == d[4 * k] && d[4 * k + 2] == d[4 * k] && d[4 * k + 3] == 255
    {
      QuadIndex(k, 0);
      QuadIndex(k, 1);
      QuadIndex(k, 2);
      QuadIndex(k, 3);
    }
  }

  /** Byte c of pixel k sits at 4 k + c. */
  lemma QuadIndex(k: int, c: int)
    requires 0 <= c < 4
    ensures (4 * k + c) / 4 == k && (4 * k + c) % 4 == c
  {
    DivModUnique(4 * k + c, 4, k, c);
  }

  /** The pixel loop of `maskToDataUrl` over a fresh (all-zero) rw × rh image. */
  method MaskToRgba(mask: seq<bool>, rw: nat, rh: nat) returns (data: seq<int>)
    requires |mask| == rw * rh
    ensures data == MaskRgba(mask)
  {
    var md := new int[4 * (rw * rh)](_ => 0);
    for j := 0 to rh
      invariant j * rw <= rw * rh
      invariant forall n :: 0 <= n < 4 * (j * rw) ==> md[n] == MaskRgba(mask)[n]
    {
      MaskRow(mask, rw, rh, md, j);
    }
    assert rh * rw == rw * rh;
    data := md[..];
  }

  /** Row j of the mask image. */
  method MaskRow(mask: seq<bool>, rw: nat, rh: nat, md: array<int>, j: int)
    requires 0 <= j < rh && |mask| == rw * rh && md.Length == 4 * (rw * rh)
    requires j * rw <= rw * rh
    requires forall n :: 0 <= n < 4 * (j * rw) ==> md[n] == MaskRgba(mask)[n]
    modifies md
    ensures (j + 1) * rw <= rw * rh
    ensures forall n :: 0 <= n < 4 * ((j + 1) * rw) ==> md[n] == MaskRgba(mask)[n]
  {
    ghost var spec := MaskRgba(mask);
    assert (j + 1) * rw == j * rw + rw <= rw * rh;
    for i := 0 to rw
      invariant forall n :: 0 <= n < 4 * (j * rw + i) ==> md[n] == spec[n]
    {
      var k := j * rw + i;
      var p := k * 4;
      var v := if mask[k] then 255 else 0;
      QuadIndex(k, 0);
      QuadIndex(k, 1);
      QuadIndex(k, 2);
      QuadIndex(k, 3);
      md[p] := v;
      md[p + 1] := v;
      md[p + 2] := v;
      md[p + 3] := 255;
    }
  }

  // ---------------------------------------------------------------------
  // The dark overlay

  /** Channel c of frame pixel p (0 where the buffer has no such byte). */
  function Channel(img: Image, p: int, c: int): int {
    ByteAt(img.data, 4 * p + c)
  }

  /** The dark overlay image: the frame's own RGBA where the dark mask is
      set, transparent black elsewhere. */
  function DarkRgba(frame: Image, rx: int, ry: int, rw: nat, dark: seq<bool>): (d: seq<int>)
    requires rw > 0
    ensures |d| == 4 * |dark|
  {
    seq(4 * |dark|, n requires 0 <= n < 4 * |dark| =>
      if dark[n / 4] then Channel(frame, FramePixel(frame.width, rx, ry, rw, n / 4), n % 4) else 0)
  }

  /** The dark-overlay copy loop over a fresh rw × rh image. */
  method DarkOverlay(frame: Image, rx: int, ry: int, rw: nat, rh: nat, dark: seq<bool>) returns (data: seq<int>)
    requires rw > 0 && |dark| == rw * rh
    ensures data == DarkRgba(frame, rx, ry, rw, dark)
  {
    var od := new int[4 * (rw * rh)](_ => 0);
    for j := 0 to rh
      invariant j * rw <= rw * rh
      invariant forall n :: 0 <= n < 4 * (j * rw) ==> od[n] == DarkRgba(frame, rx, ry, rw, dark)[n]
      invariant forall n :: 4 * (j * rw) <= n < od.Length ==> od[n] == 0
    {
      DarkRow(frame, rx, ry, rw, rh, dark, od, j);
    }
    assert rh * rw == rw * rh;
    data := od[..];
  }

  /** Row j of the dark overlay. */
  method DarkRow(frame: Image, rx: int, ry: int, rw: nat, rh: nat, dark: seq<bool>, od: array<int>, j: int)
    requires rw > 0 && 0 <= j < rh && |dark| == rw * rh && od.Length == 4 * (rw * rh)
    requires j * rw <= rw * rh
    requires forall n :: 0 <= n < 4 * (j * rw) ==> od[n] == DarkRgba(frame, rx, ry, rw, dark)[n]
    requires forall n :: 4 * (j * rw) <= n < od.Length ==> od[n] == 0
    modifies od
    ensures (j + 1) * rw <= rw * rh
    ensures forall n :: 0 <= n < 4 * ((j + 1) * rw) ==> od[n] == DarkRgba(frame, rx, ry, rw, dark)[n]
    ensures forall n :: 4 * ((j + 1) * rw) <= n < od.Length ==> od[n] == 0
  {
    ghost var spec := DarkRgba(frame, rx, ry, rw, dark);
    assert (j + 1) * rw == j * rw + rw <= rw * rh;
    for i := 0 to rw
      invariant forall n :: 0 <= n < 4 * (j * rw + i) ==> od[n] == spec[n]
      invariant forall n :: 4 * (j * rw + i) <= n < od.Length ==> od[n] == 0
    {
      var k := j * rw + i;
      QuadIndex(k, 0);
      QuadIndex(k, 1);
      QuadIndex(k, 2);
      QuadIndex(k, 3);
      if dark[k] {
        var gx, gy := rx + i, ry + j;
        var gi := (gy * frame.width + gx) * 4;
        FrameCell(frame.width, rx, ry, rw, rh, i, j);
        var p := k * 4;
        od[p] := ByteAt(frame.data, gi);
        od[p + 1] := ByteAt(frame.data, gi + 1);
        od[p + 2] := ByteAt(frame.data, gi + 2);
        od[p + 3] := ByteAt(frame.data, gi + 3);
      }
    }
  }

  /** For a segmented region the dark overlay is visible exactly on the dark
      cells: there it carries the frame pixel's alpha, which is above 0, and
      every other pixel is fully transparent black. */
  lemma DarkOverlayOfSegment(img: Image, sx: int, sy: int, r: Region)
    requires SegmentOf(img, sx, sy, r)
    ensures forall k :: 0 <= k < |r.dark| ==>
      var d := DarkRgba(img, r.rx, r.ry, r.rw, r.dark);
      (d[4 * k + 3] > 0 <==> r.dark[k])
      && (!r.dark[k] ==> d[4 * k] == d[4 * k + 1] == d[4 * k + 2] == d[4 * k + 3] == 0)
  {
    MaskIsWhite(img, sx, sy, r);
    DarkAlpha(img, r.rx, r.ry, r.rw, r.dark);
  }

  /** Where every dark cell lies over a pixel with alpha above 0, the overlay
      alpha is above 0 exactly on the dark cells. */
  lemma DarkAlpha(img: Image, rx: int, ry: int, rw: nat, dark: seq<bool>)
    requires rw > 0
    requires forall k :: 0 <= k < |dark| && dark[k] ==> AlphaAt(img, FramePixel(img.width, rx, ry, rw, k)) > 0
    ensures forall k :: 0 <= k < |dark| ==>
      var d := DarkRgba(img, rx, ry, rw, dark);
      (d[4 * k + 3] > 0 <==> dark[k])
      && (!dark[k] ==> d[4 * k] == d[4 * k + 1] == d[4 * k + 2] == d[4 * k + 3] == 0)
  {
    var d := DarkRgba(img, rx, ry, rw, dark);
    forall k | 0 <= k < |dark|
      ensures d[4 * k + 3] > 0 <==> dark[k]
      ensures !dark[k] ==> d[4 * k] == d[4 * k + 1] == d[4 * k + 2] == d[4 * k + 3] == 0
    {
      QuadIndex(k, 0);
      QuadIndex(k, 1);
      QuadIndex(k, 2);
      QuadIndex(k, 3);
    }
  }

  // ---------------------------------------------------------------------
  // Painting the selection into the overlay

  /** Byte c of an opaque pixel of colour rgb. */
  function Opaque(rgb: (int, int, int), c: int): int {
    if c == 0 then rgb.0 else if c == 1 then rgb.1 else if c == 2 then rgb.2 else 255
  }

  /** A sub-image with every masked pixel replaced by opaque rgb. */
  function Painted(d: seq<int>, mask: seq<bool>, rgb: (int, int, int)): (d': seq<int>)
    ensures |d'| == |d|
  {
    seq(|d|, n requires 0 <= n < |d| => if At(mask, n / 4) then Opaque(rgb, n % 4) else d[n])
  }

  /** Painting is per pixel: a masked pixel becomes opaque rgb, any other
      pixel keeps its four bytes. */
  lemma PaintedPixel(d: seq<int>, mask: seq<bool>, rgb: (int, int, int), k: int, c: int)
    requires 0 <= k && 0 <= c < 4 && 4 * k + c < |d|
    ensures Painted(d, mask, rgb)[4 * k + c] == if At(mask, k) then Opaque(rgb, c) else d[4 * k + c]
  {
    QuadIndex(k, c);
    var n := 4 * k + c;
    assert Painted(d, mask, rgb)[n] == if At(mask, n / 4) then Opaque(rgb, n % 4) else d[n];
  }

  /** Painting the same mask twice is painting it once. */
  lemma PaintedIdempotent(d: seq<int>, mask: seq<bool>, rgb: (int, int, int))
    ensures Painted(Painted(d, mask, rgb), mask, rgb) == Painted(d, mask, rgb)
  {
    var p := Painted(d, mask, rgb);
    assert forall n :: 0 <= n < |p| ==> Painted(p, mask, rgb)[n] == p[n];
  }

  /** The pixel loop of `drawMaskIntoOverlay` over the sub-image read back
      from the overlay. */
  method PaintMask(d: array<int>, rw: nat, rh: nat, mask: seq<bool>, rgb: (int, int, int))
    requires d.Length == 4 * (rw * rh) && |mask| == rw * rh
    modifies d
    ensures d[..] == Painted(old(d[..]), mask, rgb)
  {
    ghost var d0 := d[..];
    for j := 0 to rh
      invariant j * rw <= rw * rh
      invariant forall n :: 0 <= n < 4 * (j * rw) ==> d[n] == Painted(d0, mask, rgb)[n]
      invariant forall n :: 4 * (j * rw) <= n < d.Length ==> d[n] == d0[n]
    {
      PaintRow(d, rw, rh, mask, rgb, d0, j);
    }
    assert rh * rw == rw * rh;
  }

  /** Row j of the painting loop. */
  method PaintRow(d: array<int>, rw: nat, rh: nat, mask: seq<bool>, rgb: (int, int, int), ghost d0: seq<int>, j: int)
    requires d.Length == 4 * (rw * rh) && |mask| == rw * rh && |d0| == d.Length && 0 <= j < rh
    requires j * rw <= rw * rh
    requires forall n :: 0 <= n < 4 * (j * rw) ==> d[n] == Painted(d0, mask, rgb)[n]
    requires forall n :: 4 * (j * rw) <= n < d.Length ==> d[n] == d0[n]
    modifies d
    ensures (j + 1) * rw <= rw * rh
    ensures forall n :: 0 <= n < 4 * ((j + 1) * rw) ==> d[n] == Painted(d0, mask, rgb)[n]
    ensures forall n :: 4 * ((j + 1) * rw) <= n < d.Length ==> d[n] == d0[n]
  {
    ghost var spec := Painted(d0, mask, rgb);
    assert (j + 1) * rw == j * rw + rw <= rw * rh;
    for i := 0 to rw
      invariant forall n :: 0 <= n < 4 * (j * rw + i) ==> d[n] == spec[n]
      invariant forall n :: 4 * (j * rw + i) <= n < d.Length ==> d[n] == d0[n]
    {
      var k := j * rw + i;
      QuadIndex(k, 0);
      QuadIndex(k, 1);
      QuadIndex(k, 2);
      QuadIndex(k, 3);
      if mask[k] {
        var p := k * 4;
        d[p] := rgb.0;
        d[p + 1] := rgb.1;
        d[p + 2] := rgb.2;
        d[p + 3] := 0xFF;
      }
    }
  }

  // ---------------------------------------------------------------------
  // The overlay canvas around the painted sub-image

  /** `getImageData(rx, ry, rw, rh)` on a W × H canvas buffer: the rw × rh
      sub-image, transparent black where it leaves the canvas. */
  function GetImageData(canvas: seq<int>, W: nat, H: nat, rx: int, ry: int, rw: nat, rh: nat): (sub: seq<int>)
    requires rw > 0
    ensures |sub| == 4 * (rw * rh)
  {
    seq(4 * (rw * rh), n =>
      var x, y := rx + (n / 4) % rw, ry + (n / 4) / rw;
      if InGrid(W, H, x, y) then ByteAt(canvas, 4 * Pos(W, x, y) + n % 4) else 0)
  }

  /** `putImageData(sub, rx, ry)`: canvas pixels under the sub-image take its
      bytes, the rest keep theirs. */
  function PutImageData(canvas: seq<int>, W: nat, sub: seq<int>, rx: int, ry: int, rw: nat, rh: nat): (c': seq<int>)
    requires W > 0 && rw > 0
    ensures |c'| == |canvas|
  {
    seq(|canvas|, n requires 0 <= n < |canvas| =>
      var i, j := (n / 4) % W - rx, (n / 4) / W - ry;
      if InGrid(rw, rh, i, j) then ByteAt(sub, 4 * Pos(rw, i, j) + n % 4) else canvas[n])
  }

  /** `drawMaskIntoOverlay` for one region: read the box back from the
      overlay, paint the masked pixels, put the box back. */
  method DrawMaskIntoOverlay(canvas: seq<int>, W: nat, H: nat, rx: int, ry: int, rw: nat, rh: nat,
                             mask: seq<bool>, rgb: (int, int, int))
    returns (canvas': seq<int>)
    requires W > 0 && rw > 0 && |canvas| == 4 * (W * H) && |mask| == rw * rh
    ensures canvas' == PutImageData(canvas, W, Painted(GetImageData(canvas, W, H, rx, ry, rw, rh), mask, rgb), rx, ry, rw, rh)
    ensures |canvas'| == |canvas|
    ensures forall x, y, c :: InGrid(W, H, x, y) && 0 <= c < 4 ==>
      ByteAt(canvas', 4 * Pos(W, x, y) + c) ==
        if InGrid(rw, rh, x - rx, y - ry) && At(mask, Pos(rw, x - rx, y - ry)) then Opaque(rgb, c)
        else ByteAt(canvas, 4 * Pos(W, x, y) + c)
  {
    var sub := GetImageData(canvas, W, H, rx, ry, rw, rh);
    var d := new int[|sub|](n requires 0 <= n < |sub| => sub[n]);
    assert d[..] == sub;
    PaintMask(d, rw, rh, mask, rgb);
    canvas' := PutImageData(canvas, W, d[..], rx, ry, rw, rh);
    forall x, y, c | InGrid(W, H, x, y) && 0 <= c < 4 {
      PaintOnCanvas(canvas, W, H, rx, ry, rw, rh, mask, rgb, x, y, c);
    }
  }

  /** Reading the box, painting it and putting it back changes exactly the
      masked pixels of the box, to opaque rgb. */
  lemma PaintOnCanvas(canvas: seq<int>, W: nat, H: nat, rx: int, ry: int, rw: nat, rh: nat,
                      mask: seq<bool>, rgb: (int, int, int), x: int, y: int, c: int)
    requires W > 0 && rw > 0 && |canvas| == 4 * (W * H) && |mask| == rw * rh
    requires InGrid(W, H, x, y) && 0 <= c < 4
    ensures ByteAt(PutImageData(canvas, W, Painted(GetImageData(canvas, W, H, rx, ry, rw, rh), mask, rgb), rx, ry, rw, rh),
                   4 * Pos(W, x, y) + c) ==
      if InGrid(rw, rh, x - rx, y - ry) && At(mask, Pos(rw, x - rx, y - ry)) then Opaque(rgb, c)
      else ByteAt(canvas, 4 * Pos(W, x, y) + c)
  {
    var sub := GetImageData(canvas, W, H, rx, ry, rw, rh);
    var painted := Painted(sub, mask, rgb);
    var n := 4 * Pos(W, x, y) + c;
    var i, j := x - rx, y - ry;
    PutPixel(canvas, W, H, painted, rx, ry, rw, rh, x, y, c);
    if InGrid(rw, rh, i, j) {
      var k := Pos(rw, i, j);
      GetPixel(canvas, W, H, rx, ry, rw, rh, i, j, c);
      assert rx + i == x && ry + j == y;
      assert sub[4 * k + c] == ByteAt(canvas, n);
      PaintedPixel(sub, mask, rgb, k, c);
      assert ByteAt(painted, 4 * k + c) == if At(mask, k) then Opaque(rgb, c) else ByteAt(canvas, n);
    }
  }

  /** Byte c of canvas pixel (x, y) after `putImageData`: the sub-image's
      byte when (x, y) lies under it, the old byte otherwise. */
  lemma PutPixel(canvas: seq<int>, W: nat, H: nat, sub: seq<int>, rx: int, ry: int, rw: nat, rh: nat,
                 x: int, y: int, c: int)
    requires W > 0 && rw > 0 && |canvas| == 4 * (W * H)
    requires InGrid(W, H, x, y) && 0 <= c < 4
    ensures ByteAt(PutImageData(canvas, W, sub, rx, ry, rw, rh), 4 * Pos(W, x, y) + c) ==
      if InGrid(rw, rh, x - rx, y - ry) then ByteAt(sub, 4 * Pos(rw, x - rx, y - ry) + c)
      else ByteAt(canvas, 4 * Pos(W, x, y) + c)
  {
    var n := 4 * Pos(W, x, y) + c;
    PosInRange(W, H, x, y);
    QuadIndex(Pos(W, x, y), c);
    PosDecode(W, x, y);
  }

  /** Byte c of sub-image pixel (i, j) is byte c of canvas pixel (rx + i, ry + j). */
  lemma GetPixel(canvas: seq<int>, W: nat, H: nat, rx: int, ry: int, rw: nat, rh: nat, i: int, j: int, c: int)
    requires rw > 0 && InGrid(rw, rh, i, j) && 0 <= c < 4
    ensures 0 <= 4 * Pos(rw, i, j) + c < 4 * (rw * rh)
    ensures GetImageData(canvas, W, H, rx, ry, rw, rh)[4 * Pos(rw, i, j) + c] ==
      if InGrid(W, H, rx + i, ry + j) then ByteAt(canvas, 4 * Pos(W, rx + i, ry + j) + c) else 0
  {
    PosInRange(rw, rh, i, j);
    QuadIndex(Pos(rw, i, j), c);
    PosDecode(rw, i, j);
  }

  // ---------------------------------------------------------------------
  // Fill colours

  /** The value of a hexadecimal digit. */
  function HexDigit(ch: char): (d: Option<nat>)
    ensures d.Some? ==> d.value < 16
  {
    if '0' <= ch <= '9' then Some(ch as int - '0' as int)
    else if 'a' <= ch <= 'f' then Some(ch as int - 'a' as int + 10)
    else if 'A' <= ch <= 'F' then Some(ch as int - 'A' as int + 10)
    else None
  }

  predicate AllHex(s: string) {
    forall i :: 0 <= i < |s| ==> HexDigit(s[i]).Some?
  }

  /** The number a string of hexadecimal digits spells. */
  function HexValue(s: string): nat
    requires AllHex(s)
  {
    if |s| == 0 then 0 else 16 * HexValue(s[..|s| - 1]) + HexDigit(s[|s| - 1]).value
  }

  function Pow16(n: nat): nat {
    if n == 0 then 1 else 16 * Pow16(n - 1)
  }

  /** Length of the longest prefix of hexadecimal digits. */
  function HexPrefix(s: string): (n: nat)
    ensures n <= |s| && AllHex(s[..n])
    ensures n < |s| ==> HexDigit(s[n]).None?
  {
    if |s| == 0 || HexDigit(s[0]).None? then 0
    else
      var n := HexPrefix(s[1..]);
      assert s[..n + 1] == [s[0]] + s[1..][..n];
      1 + n
  }

  /** `parseInt(s, 16)` on a string without blanks, sign or "0x": the value
      of the longest digit prefix, None (NaN) when there is no digit. */
  function ParseHex(s: string): (v: Option<nat>)
    ensures AllHex(s) && |s| > 0 ==> v == Some(HexValue(s))
  {
    var n := HexPrefix(s);
    assert AllHex(s) ==> n == |s|;
    assert s[..|s|] == s;
    if n == 0 then None else Some(HexValue(s[..n]))
  }

  /** The three bytes `(v >> 16) & 0xFF`, `(v >> 8) & 0xFF`, `v & 0xFF` of a
      non-negative value (bits 16–23, 8–15 and 0–7). */
  function ColorBytes(v: nat): (int, int, int) {
    ((v / 65536) % 256, (v / 256) % 256, v % 256)
  }

  /** The colour `drawMaskIntoOverlay` paints for a slot: its fill colour
      without the leading '#', parsed as hexadecimal; NaN gives black. */
  function FillRgb(fill: string): (int, int, int) {
    match ParseHex(if |fill| == 0 then fill else fill[1..])
    case None => (0, 0, 0)
    case Some(v) => ColorBytes(v)
  }

  /** Appending digits shifts the value left by four bits per digit. */
  lemma {:induction false} HexConcat(a: string, b: string)
    requires AllHex(a) && AllHex(b)
    ensures AllHex(a + b)
    ensures HexValue(a + b) == HexValue(a) * Pow16(|b|) + HexValue(b)
    decreases |b|
  {
    AllHexConcat(a, b);
    if |b| == 0 {
      assert a + b == a;
    } else {
      var b', last := b[..|b| - 1], b[|b| - 1];
      assert AllHex(b');
      var ab := a + b;
      assert ab[..|ab| - 1] == a + b' && ab[|ab| - 1] == last;
      HexConcat(a, b');
      ShiftDigit(HexValue(a), Pow16(|b'|), HexValue(b'), HexDigit(last).value);
    }
  }

  lemma AllHexConcat(a: string, b: string)
    requires AllHex(a) && AllHex(b)
    ensures AllHex(a + b)
  {
    var ab := a + b;
    forall i | 0 <= i < |ab| ensures HexDigit(ab[i]).Some? {
      if i >= |a| { assert ab[i] == b[i - |a|]; }
    }
  }

  /** One more digit d after A · P + B: the arithmetic step of HexConcat. */
  lemma ShiftDigit(A: int, P: int, B: int, d: int)
    ensures 16 * (A * P + B) + d == A * (16 * P) + (16 * B + d)
  {
  }

  /** Two hexadecimal digits make one byte. */
  lemma HexPair(s: string)
    requires AllHex(s) && |s| == 2
    ensures HexValue(s) == 16 * HexDigit(s[0]).value + HexDigit(s[1]).value < 256
  {
    var s0 := s[..1];
    assert s0[..0] == [] && s0[0] == s[0] && s[..|s| - 1] == s0;
    assert HexValue(s0) == 16 * HexValue(s0[..0]) + HexDigit(s[0]).value;
    assert HexValue(s) == 16 * HexValue(s0) + HexDigit(s[1]).value;
  }

  /** Three bytes packed as 0xRRGGBB unpack to themselves. */
  lemma UnpackBytes(R: int, G: int, B: int)
    requires 0 <= R < 256 && 0 <= G < 256 && 0 <= B < 256
    ensures ColorBytes((R * 256 + G) * 256 + B) == (R, G, B)
  {
    var v := (R * 256 + G) * 256 + B;
    assert v == R * 65536 + (G * 256 + B);
    DivModUnique(v, 65536, R, G * 256 + B);
    DivModUnique(v, 256, R * 256 + G, B);
    DivModUnique(R * 256 + G, 256, R, G);
  }

  /** Six hexadecimal digits are three bytes packed as 0xRRGGBB. */
  lemma SixDigits(s: string)
    requires |s| == 6 && AllHex(s)
    ensures HexValue(s) == (HexValue(s[..2]) * 256 + HexValue(s[2..4])) * 256 + HexValue(s[4..])
    ensures HexValue(s[..2]) < 256 && HexValue(s[2..4]) < 256 && HexValue(s[4..]) < 256
  {
    var r, g, b := s[..2], s[2..4], s[4..];
    assert AllHex(r) && AllHex(g) && AllHex(b);
    assert s == (r + g) + b;
    HexConcat(r, g);
    HexConcat(r + g, b);
    HexPair(r);
    HexPair(g);
    HexPair(b);
    assert Pow16(2) == 256;
  }

  /** A "#rrggbb" colour is painted with exactly its three byte pairs. */
  lemma FillRgbOfHexColor(fill: string)
    requires |fill| == 7 && AllHex(fill[1..])
    ensures FillRgb(fill) == (HexValue(fill[1..3]), HexValue(fill[3..5]), HexValue(fill[5..7]))
  {
    var s := fill[1..];
    assert s[..2] == fill[1..3] && s[2..4] == fill[3..5] && s[4..] == fill[5..7];
    SixDigits(s);
    UnpackBytes(HexValue(s[..2]), HexValue(s[2..4]), HexValue(s[4..]));
  }

  /** The byte pairs of a concrete "#rrggbb" colour. */
  lemma HexColorIs(fill: string, R: int, G: int, B: int)
    requires |fill| == 7 && AllHex(fill[1..])
    requires R == 16 * HexDigit(fill[1]).value + HexDigit(fill[2]).value
    requires G == 16 * HexDigit(fill[3]).value + HexDigit(fill[4]).value
    requires B == 16 * HexDigit(fill[5]).value + HexDigit(fill[6]).value
    ensures FillRgb(fill) == (R, G, B)
  {
    FillRgbOfHexColor(fill);
    HexPair(fill[1..3]);
    HexPair(fill[3..5]);
    HexPair(fill[5..7]);
  }

  /** The three slots are painted pink beige, light blue and peach; the
      single-slot mockup's fixed tint (0xE5, 0xC4, 0xBE) is slot 0's. */
  lemma SlotTints()
    ensures FillRgb(GetDeviceColor(0)) == (0xE5, 0xC4, 0xBE)
    ensures FillRgb(GetDeviceColor(1)) == (0xAC, 0xCB, 0xDE)
    ensures FillRgb(GetDeviceColor(2)) == (0xFF, 0xE2, 0xC6)
  {
    HexColorIs(Primary, 0xE5, 0xC4, 0xBE);
    HexColorIs(Secondary, 0xAC, 0xCB, 0xDE);
    HexColorIs(Tertiary, 0xFF, 0xE2, 0xC6);
  }
}
