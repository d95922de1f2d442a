/** The pixel detectors that look for a device's visual features: a keyboard
    band below the screen (in the whole frame, or in the lower part of an
    extended mask), a black cutout at the top of a phone screen, a metal
    side along the border, and the centroid of the dark notch pixels.
    Each is a scanning loop proved equal to a counting definition, and the
    lemmas state what those definitions decide. */
module DeviceFeatures {
  import opened Raster
  import opened Segmentation
  import opened PixelScan
  import opened JsNumber

  /** Luminance (× 1000) of pixel (x, y), None where the read is NaN. */
  function LumXY(img: Image, x: int, y: int): Option<int> {
    LumAt(img, Pos(img.width, x, y))
  }

  // ---------------------------------------------------------------------
  // Tones and ratios

  /** The keyboard scans' three tone classes: black below 50, mid-tone from
      50 to 200, white above; a NaN luminance fails both tests and counts
      as white. */
  datatype Tone = Black | MidTone | White

  function ToneOf(lum: Option<int>): Tone {
    if lum.Some? && lum.value < 50000 then Black
    else if lum.Some? && lum.value <= 200000 then MidTone
    else White
  }

  /** Pixel test: (x, y) has tone t. */
  function HasTone(img: Image, t: Tone): (int, int) -> bool {
    (x, y) => ToneOf(LumXY(img, x, y)) == t
  }

  /** `(total > 0 ? count / total : 0) >= num / den`. */
  predicate Reaches(count: int, total: int, num: nat, den: nat) {
    total > 0 && den * count >= num * total
  }

  /** `(total > 0 ? count / total : 0) > num / den`. */
  predicate Exceeds(count: int, total: int, num: nat, den: nat) {
    total > 0 && den * count > num * total
  }

  /** `count > width * num / den`, as the row-dominance tests compare (the
      row width is not guarded: a negative width makes every count exceed). */
  predicate RowShare(count: int, width: int, num: nat, den: nat) {
    den * count > num * width
  }

  /** Row y of [x0, x1) has a tone class covering more than num / den of it. */
  function DominantRow(img: Image, x0: int, x1: int, num: nat, den: nat): int -> bool {
    y => RowShare(CountRow(HasTone(img, Black), y, x0, x1), x1 - x0, num, den)
      || RowShare(CountRow(HasTone(img, MidTone), y, x0, x1), x1 - x0, num, den)
      || RowShare(CountRow(HasTone(img, White), y, x0, x1), x1 - x0, num, den)
  }

  /** Every scanned pixel has exactly one tone, so the three counts of a
      window add up to its pixels. */
  lemma TonesPartition(img: Image, y0: int, y1: int, x0: int, x1: int)
    ensures CountBand(HasTone(img, Black), y0, y1, x0, x1) + CountBand(HasTone(img, MidTone), y0, y1, x0, x1)
          + CountBand(HasTone(img, White), y0, y1, x0, x1) == Cells(y0, y1, x0, x1)
  {
    CountBandSplit(HasTone(img, Black), HasTone(img, MidTone), HasTone(img, White), y0, y1, x0, x1);
  }

  /** Adding a row to a window adds that row's pixels. */
  lemma CellsStep(y0: int, y: int, x0: int, x1: int)
    requires y0 <= y
    ensures Cells(y0, y + 1, x0, x1) == Cells(y0, y, x0, x1) + (if x1 > x0 then x1 - x0 else 0)
  {
    if x1 > x0 && y > y0 {
      assert (y + 1 - y0) * (x1 - x0) == (y - y0) * (x1 - x0) + (x1 - x0);
    }
  }

  /** One row of a tone scan: the tone counts and the pixels visited. */
  method ScanRowTones(img: Image, y: int, x0: int, x1: int) returns (black: nat, mid: nat, white: nat, n: nat)
    ensures black == CountRow(HasTone(img, Black), y, x0, x1)
    ensures mid == CountRow(HasTone(img, MidTone), y, x0, x1)
    ensures white == CountRow(HasTone(img, White), y, x0, x1)
    ensures n == if x1 > x0 then x1 - x0 else 0
  {
    black, mid, white, n := 0, 0, 0, 0;
    var x := x0;
    while x < x1
      invariant x0 <= x && (x <= x1 || x == x0)
      invariant black == CountRow(HasTone(img, Black), y, x0, x)
      invariant mid == CountRow(HasTone(img, MidTone), y, x0, x)
      invariant white == CountRow(HasTone(img, White), y, x0, x)
      invariant n == x - x0
      decreases x1 - x
    {
      var lum := LumXY(img, x, y);
      n := n + 1;
      match ToneOf(lum) {
        case Black => black := black + 1;
        case MidTone => mid := mid + 1;
        case White => white := white + 1;
      }
      x := x + 1;
    }
  }

  // ---------------------------------------------------------------------
  // Keyboard below the screen, in the whole frame

  /** A scan window: rows [y0, y1) by columns [x0, x1). */
  datatype Window = Window(y0: int, y1: int, x0: int, x1: int)

  /** The band below the screen rectangle: its height as computed (at most
      40 % of the screen height) and the window scanned, the central 80 %
      of the screen's width. */
  datatype KeyboardBand = KeyboardBand(areaHeight: int, win: Window)

  function BelowScreen(img: Image, rect: ScreenRectPct): KeyboardBand {
    var screenX := (rect.xPct * img.width as real).Floor;
    var screenY := (rect.yPct * img.height as real).Floor;
    var screenW := (rect.wPct * img.width as real).Floor;
    var screenH := (rect.hPct * img.height as real).Floor;
    var bottom := screenY + screenH;
    var area := Min(Max(10, img.height - bottom), (screenH as real * 0.4).Floor);
    KeyboardBand(area, Window(bottom, Min(bottom + area, img.height),
                              screenX + (screenW as real * 0.10).Floor, screenX + (screenW as real * 0.90).Floor))
  }

  /** What a tone scan of a window gathers: the three tone counts, the
      pixels visited, and whether some row had a dominant tone. */
  datatype ToneTally = ToneTally(black: nat, mid: nat, white: nat, total: nat, pattern: bool)

  /** The tally of window w, a row being dominant past 30 %. */
  function FrameTally(img: Image, w: Window): ToneTally {
    ToneTally(CountBand(HasTone(img, Black), w.y0, w.y1, w.x0, w.x1),
              CountBand(HasTone(img, MidTone), w.y0, w.y1, w.x0, w.x1),
              CountBand(HasTone(img, White), w.y0, w.y1, w.x0, w.x1),
              Cells(w.y0, w.y1, w.x0, w.x1),
              CountLines(DominantRow(img, w.x0, w.x1, 3, 10), w.y0, w.y1) > 0)
  }

  /** The frame band's thresholds: black at least 20 %, mid-tone at least
      20 % or white at least 15 %, a dominant row, or the three ratios
      together at least 30 %. */
  predicate FrameVerdict(t: ToneTally) {
    || Reaches(t.black, t.total, 1, 5)
    || (Reaches(t.mid, t.total, 1, 5) || Reaches(t.white, t.total, 3, 20))
    || t.pattern
    || Reaches(t.black + t.mid + t.white, t.total, 3, 10)
  }

  /** The corrected `detectKeyboardFromFrame`: no band of 10 rows, no
      keyboard; otherwise the thresholds over the band. */
  predicate KeyboardBelowScreen(img: Image, rect: ScreenRectPct) {
    var band := BelowScreen(img, rect);
    band.areaHeight >= 10 && FrameVerdict(FrameTally(img, band.win))
  }

  /** What the thresholds come to: since the tone counts split the band,
      the ratios together are 100 % of any non-empty band, so a keyboard is
      reported exactly when the band is 10 rows high and some pixel or row
      is scanned (a row of negative width has every tone "dominant"). */
  lemma KeyboardBelowScreenWhenScanned(img: Image, rect: ScreenRectPct)
    ensures var band := BelowScreen(img, rect);
      KeyboardBelowScreen(img, rect) <==> band.areaHeight >= 10 && band.win.y0 < band.win.y1 && band.win.x0 != band.win.x1
  {
    var w := BelowScreen(img, rect).win;
    FrameVerdictWhenScanned(img, w);
  }

  lemma FrameVerdictWhenScanned(img: Image, w: Window)
    ensures FrameVerdict(FrameTally(img, w)) <==> w.y0 < w.y1 && w.x0 != w.x1
  {
    var g := DominantRow(img, w.x0, w.x1, 3, 10);
    TonesPartition(img, w.y0, w.y1, w.x0, w.x1);
    CountLinesPositive(g, w.y0, w.y1);
    if w.y0 < w.y1 && w.x1 < w.x0 {
      assert g(w.y0);
    }
    if w.x0 == w.x1 {
      forall y | w.y0 <= y < w.y1
        ensures !g(y)
      {
        assert CountRow(HasTone(img, Black), y, w.x0, w.x1) == 0;
        assert CountRow(HasTone(img, MidTone), y, w.x0, w.x1) == 0;
        assert CountRow(HasTone(img, White), y, w.x0, w.x1) == 0;
      }
    }
    if w.y0 < w.y1 && w.x0 < w.x1 {
      assert Cells(w.y0, w.y1, w.x0, w.x1) > 0;
    }
  }

  /** The band's rows scanned one by one, counting tones and watching for
      a dominant row. */
  method ScanFrameBand(img: Image, w: Window) returns (t: ToneTally)
    ensures t == FrameTally(img, w)
  {
    var y0, y1, x0, x1 := w.y0, w.y1, w.x0, w.x1;
    var black, mid, white, total := 0, 0, 0, 0;
    var pattern := false;
    var y := y0;
    while y < y1
      invariant y0 <= y && (y <= y1 || y == y0)
      invariant black == CountBand(HasTone(img, Black), y0, y, x0, x1)
      invariant mid == CountBand(HasTone(img, MidTone), y0, y, x0, x1)
      invariant white == CountBand(HasTone(img, White), y0, y, x0, x1)
      invariant total == Cells(y0, y, x0, x1)
      invariant pattern == (CountLines(DominantRow(img, x0, x1, 3, 10), y0, y) > 0)
      decreases y1 - y
    {
      var rowBlack, rowMid, rowWhite, n := ScanRowTones(img, y, x0, x1);
      black, mid, white := black + rowBlack, mid + rowMid, white + rowWhite;
      CellsStep(y0, y, x0, x1);
      total := total + n;
      var rowWidth := x1 - x0;
      if RowShare(rowBlack, rowWidth, 3, 10) || RowShare(rowMid, rowWidth, 3, 10) || RowShare(rowWhite, rowWidth, 3, 10) {
        pattern := true;
      }
      y := y + 1;
    }
    t := ToneTally(black, mid, white, total, pattern);
  }

  /** `detectKeyboardFromFrame` with its logic as intended. */
  method DetectKeyboardFromFrame(img: Image, rect: ScreenRectPct) returns (hasKeyboard: bool)
    ensures hasKeyboard == KeyboardBelowScreen(img, rect)
  {
    var band := BelowScreen(img, rect);
    if band.areaHeight < 10 {
      return false;
    }
    var t := ScanFrameBand(img, band.win);
    hasKeyboard := FrameVerdict(t);
  }

  /** How `detectKeyboardFromFrame` ends as written: its debug log reads the
      band's start and end rows before their declarations, which throws a
      ReferenceError as soon as the 10-row check has passed. */
  datatype Completion = Returned(value: bool) | ThrewReferenceError

  function KeyboardFromFrameAsWritten(img: Image, rect: ScreenRectPct): (c: Completion)
    ensures c != Returned(true)
  {
    if BelowScreen(img, rect).areaHeight < 10 then Returned(false) else ThrewReferenceError
  }

  /** Wherever the intended logic finds a keyboard, the code as written
      throws instead, and it never reports one. */
  lemma AsWrittenThrowsWhereKeyboardFound(img: Image, rect: ScreenRectPct)
    requires KeyboardBelowScreen(img, rect)
    ensures KeyboardFromFrameAsWritten(img, rect) == ThrewReferenceError
  {
  }

  /** A concrete case: a 100 × 100 frame whose screen is its top half. The
      band is rows 50 to 70 over columns 10 to 90, so the intended logic
      reports a keyboard whatever the pixels, and the code as written throws. */
  lemma AsWrittenThrowsOnTopHalfScreen(data: seq<int>)
    ensures var img := Image(100, 100, data);
      var rect := ScreenRectPct(0.0, 0.0, 1.0, 0.5);
      KeyboardBelowScreen(img, rect) && KeyboardFromFrameAsWritten(img, rect) == ThrewReferenceError
  {
    var img := Image(100, 100, data);
    var rect := ScreenRectPct(0.0, 0.0, 1.0, 0.5);
    assert (0.0 * 100.0).Floor == 0 && (1.0 * 100.0).Floor == 100 && (0.5 * 100.0).Floor == 50;
    assert (50.0 * 0.4).Floor == 20 && (100.0 * 0.10).Floor == 10 && (100.0 * 0.90).Floor == 90;
    assert BelowScreen(img, rect) == KeyboardBand(20, Window(50, 70, 10, 90));
    KeyboardBelowScreenWhenScanned(img, rect);
  }

  // ---------------------------------------------------------------------
  // Keyboard in the lower part of an extended mask

  /** A jump of more than 30 in luminance from a previous pixel whose
      luminance is a number at least 0 (the row's first pixel has -1 as
      its predecessor; after a NaN there is no comparison). */
  predicate Jump(prev: Option<int>, cur: Option<int>) {
    prev.Some? && prev.value >= 0 && cur.Some? && Abs(cur.value - prev.value) > 30000
  }

  /** Pixel test: an edge at (x, y) within the row scan that starts at x0. */
  function EdgeAt(img: Image, x0: int): (int, int) -> bool {
    (x, y) => x > x0 && Jump(LumXY(img, x - 1, y), LumXY(img, x, y))
  }

  /** Row test: more than 5 % of the row's width are edges. */
  function EdgeRow(img: Image, x0: int, x1: int): int -> bool {
    y => RowShare(CountRow(EdgeAt(img, x0), y, x0, x1), x1 - x0, 1, 20)
  }

  /** The bands tried, by their first row as a fraction of the height: the
      bottom 20 %, 30 % and 40 %. */
  const BandStarts: seq<real> := [0.80, 0.70, 0.60]

  /** The window of the band starting at `start`, over the central 80 %. */
  function MaskBand(img: Image, start: real): Window {
    Window((img.height as real * start).Floor, (img.height as real * 1.0).Floor,
           (img.width as real * 0.10).Floor, (img.width as real * 0.90).Floor)
  }

  /** What a band scan gathers: black and mid-tone counts, the pixels
      visited, whether a row had a tone past 40 %, and the edge rows. */
  datatype BandTally = BandTally(black: nat, mid: nat, total: nat, pattern: bool, edgeRows: nat)

  function MaskTally(img: Image, w: Window): BandTally {
    BandTally(CountBand(HasTone(img, Black), w.y0, w.y1, w.x0, w.x1),
              CountBand(HasTone(img, MidTone), w.y0, w.y1, w.x0, w.x1),
              Cells(w.y0, w.y1, w.x0, w.x1),
              CountLines(DominantRow(img, w.x0, w.x1, 2, 5), w.y0, w.y1) > 0,
              CountLines(EdgeRow(img, w.x0, w.x1), w.y0, w.y1))
  }

  /** The test of one band: black at least 40 %, mid-tone at least 40 %, a
      row more than 40 % one tone, or more than 3 edge rows. */
  predicate MaskVerdict(t: BandTally) {
    Reaches(t.black, t.total, 2, 5) || Reaches(t.mid, t.total, 2, 5) || t.pattern || t.edgeRows > 3
  }

  predicate KeyboardInBand(img: Image, start: real) {
    MaskVerdict(MaskTally(img, MaskBand(img, start)))
  }

  /** `detectKeyboard`: some band, tried from the narrowest, passes. */
  predicate KeyboardInMask(img: Image) {
    exists i :: 0 <= i < |BandStarts| && KeyboardInBand(img, BandStarts[i])
  }

  /** One row of the mask scan: the tone counts, the pixels visited and the
      edges, tracking the previous pixel's luminance. */
  method ScanRowEdges(img: Image, y: int, x0: int, x1: int) returns (black: nat, mid: nat, white: nat, n: nat, edges: nat)
    ensures black == CountRow(HasTone(img, Black), y, x0, x1)
    ensures mid == CountRow(HasTone(img, MidTone), y, x0, x1)
    ensures white == CountRow(HasTone(img, White), y, x0, x1)
    ensures n == if x1 > x0 then x1 - x0 else 0
    ensures edges == CountRow(EdgeAt(img, x0), y, x0, x1)
  {
    black, mid, white, n, edges := 0, 0, 0, 0, 0;
    var prev: Option<int> := Some(-1000);
    var x := x0;
    while x < x1
      invariant x0 <= x && (x <= x1 || x == x0)
      invariant black == CountRow(HasTone(img, Black), y, x0, x)
      invariant mid == CountRow(HasTone(img, MidTone), y, x0, x)
      invariant white == CountRow(HasTone(img, White), y, x0, x)
      invariant n == x - x0
      invariant edges == CountRow(EdgeAt(img, x0), y, x0, x)
      invariant prev == if x == x0 then Some(-1000) else LumXY(img, x - 1, y)
      decreases x1 - x
    {
      var lum := LumXY(img, x, y);
      n := n + 1;
      match ToneOf(lum) {
        case Black => black := black + 1;
        case MidTone => mid := mid + 1;
        case White => white := white + 1;
      }
      if Jump(prev, lum) {
        edges := edges + 1;
      }
      prev := lum;
      x := x + 1;
    }
  }

  /** Adding row y to a band scan: each count grows by the row's count,
      the pattern flag by the row's dominance, the edge rows by one if the
      row has enough edges. */
  lemma MaskTallyStep(img: Image, y0: int, y: int, x0: int, x1: int)
    requires y0 <= y
    ensures CountBand(HasTone(img, Black), y0, y + 1, x0, x1) == CountBand(HasTone(img, Black), y0, y, x0, x1) + CountRow(HasTone(img, Black), y, x0, x1)
    ensures CountBand(HasTone(img, MidTone), y0, y + 1, x0, x1) == CountBand(HasTone(img, MidTone), y0, y, x0, x1) + CountRow(HasTone(img, MidTone), y, x0, x1)
    ensures (CountLines(DominantRow(img, x0, x1, 2, 5), y0, y + 1) > 0) ==
      ((CountLines(DominantRow(img, x0, x1, 2, 5), y0, y) > 0)
       || RowShare(CountRow(HasTone(img, Black), y, x0, x1), x1 - x0, 2, 5)
       || RowShare(CountRow(HasTone(img, MidTone), y, x0, x1), x1 - x0, 2, 5)
       || RowShare(CountRow(HasTone(img, White), y, x0, x1), x1 - x0, 2, 5))
    ensures CountLines(EdgeRow(img, x0, x1), y0, y + 1) ==
      CountLines(EdgeRow(img, x0, x1), y0, y) + (if RowShare(CountRow(EdgeAt(img, x0), y, x0, x1), x1 - x0, 1, 20) then 1 else 0)
  {
  }

  /** The scan of one band. */
  method ScanMaskBand(img: Image, w: Window) returns (t: BandTally)
    ensures t == MaskTally(img, w)
  {
    var y0, y1, x0, x1 := w.y0, w.y1, w.x0, w.x1;
    var black, mid, total := 0, 0, 0;
    var edgeRows := 0;
    var pattern := false;
    var y := y0;
    while y < y1
      invariant y0 <= y && (y <= y1 || y == y0)
      invariant black == CountBand(HasTone(img, Black), y0, y, x0, x1)
      invariant mid == CountBand(HasTone(img, MidTone), y0, y, x0, x1)
      invariant total == Cells(y0, y, x0, x1)
      invariant pattern == (CountLines(DominantRow(img, x0, x1, 2, 5), y0, y) > 0)
      invariant edgeRows == CountLines(EdgeRow(img, x0, x1), y0, y)
      decreases y1 - y
    {
      var rowBlack, rowMid, rowWhite, n, edges := ScanRowEdges(img, y, x0, x1);
      black, mid := black + rowBlack, mid + rowMid;
      MaskTallyStep(img, y0, y, x0, x1);
      CellsStep(y0, y, x0, x1);
      total := total + n;
      var rowWidth := x1 - x0;
      if RowShare(edges, rowWidth, 1, 20) {
        edgeRows := edgeRows + 1;
      }
      if RowShare(rowBlack, rowWidth, 2, 5) || RowShare(rowMid, rowWidth, 2, 5) || RowShare(rowWhite, rowWidth, 2, 5) {
        pattern := true;
      }
      y := y + 1;
    }
    t := BandTally(black, mid, total, pattern, edgeRows);
  }

  /** `detectKeyboard`: the bands in order, stopping at the first that
      passes. */
  method DetectKeyboard(img: Image) returns (hasKeyboard: bool)
    ensures hasKeyboard == KeyboardInMask(img)
  {
    for i := 0 to |BandStarts|
      invariant forall j :: 0 <= j < i ==> !KeyboardInBand(img, BandStarts[j])
    {
      var t := ScanMaskBand(img, MaskBand(img, BandStarts[i]));
      if MaskVerdict(t) {
        return true;
      }
    }
    return false;
  }

  /** The bands are nested: each starts no lower than the one before and
      all end at the bottom row. */
  lemma MaskBandsNested(img: Image)
    ensures MaskBand(img, 0.60).y0 <= MaskBand(img, 0.70).y0 <= MaskBand(img, 0.80).y0 <= MaskBand(img, 0.80).y1
    ensures MaskBand(img, 0.80).y1 == MaskBand(img, 0.70).y1 == MaskBand(img, 0.60).y1 == img.height
  {
    var h := img.height as real;
    assert h * 0.60 <= h * 0.70 <= h * 0.80 <= h * 1.0;
  }

  // ---------------------------------------------------------------------
  // Metal side

  /** Width of the border band: 5 % of the shorter side, rounded down. */
  function EdgeThickness(img: Image): int {
    (Min(img.width, img.height) as real * 0.05).Floor
  }

  /** Pixel test: (x, y) lies in the border band. */
  function InBorder(img: Image): (int, int) -> bool {
    (x, y) => var e := EdgeThickness(img);
      x < e || x >= img.width - e || y < e || y >= img.height - e
  }

  /** Metal-looking colour: luminance from 102 to 178 and saturation
      (max - min) / max below 0.2, a black pixel counting as unsaturated. */
  predicate MetalRgb(r: int, g: int, b: int) {
    var hi := Max(r, Max(g, b));
    var lo := Min(r, Min(g, b));
    && 102000 <= Lum1000(r, g, b) <= 178000
    && (hi <= 0 || 5 * (hi - lo) < hi)
  }

  /** Pixel test: a border pixel of metal colour (never one whose read is
      NaN). */
  function MetalAt(img: Image): (int, int) -> bool {
    (x, y) => var p := Pos(img.width, x, y);
      InBorder(img)(x, y) && 0 <= p && 4 * p + 2 < |img.data|
      && MetalRgb(img.data[4 * p], img.data[4 * p + 1], img.data[4 * p + 2])
  }

  /** `detectMetalSide`: more than 10 % of the border band's pixels are
      metal-coloured. */
  predicate HasMetalSide(img: Image) {
    Exceeds(CountBand(MetalAt(img), 0, img.height, 0, img.width), CountBand(InBorder(img), 0, img.height, 0, img.width), 1, 10)
  }

  /** One row of the metal scan: the border pixels and the metal ones. */
  method ScanBorderRow(img: Image, y: int) returns (metal: nat, total: nat)
    ensures metal == CountRow(MetalAt(img), y, 0, img.width)
    ensures total == CountRow(InBorder(img), y, 0, img.width)
  {
    var e := EdgeThickness(img);
    metal, total := 0, 0;
    for x := 0 to img.width
      invariant metal == CountRow(MetalAt(img), y, 0, x)
      invariant total == CountRow(InBorder(img), y, 0, x)
    {
      var isEdge := x < e || x >= img.width - e || y < e || y >= img.height - e;
      if !isEdge {
        continue;
      }
      total := total + 1;
      var p := Pos(img.width, x, y);
      if 0 <= p && 4 * p + 2 < |img.data| && MetalRgb(img.data[4 * p], img.data[4 * p + 1], img.data[4 * p + 2]) {
        metal := metal + 1;
      }
    }
  }

  method DetectMetalSide(img: Image) returns (hasMetalSide: bool)
    ensures hasMetalSide == HasMetalSide(img)
  {
    var metal, total := 0, 0;
    for y := 0 to img.height
      invariant metal == CountBand(MetalAt(img), 0, y, 0, img.width)
      invariant total == CountBand(InBorder(img), 0, y, 0, img.width)
    {
      var rowMetal, rowTotal := ScanBorderRow(img, y);
      metal, total := metal + rowMetal, total + rowTotal;
    }
    hasMetalSide := Exceeds(metal, total, 1, 10);
  }

  /** Below 20 pixels on the shorter side the border band is empty, so no
      metal side is found. */
  lemma NoMetalSideWithoutBorder(img: Image)
    requires Min(img.width, img.height) < 20
    ensures CountBand(InBorder(img), 0, img.height, 0, img.width) == 0
    ensures !HasMetalSide(img)
  {
    assert EdgeThickness(img) <= 0 by {
      assert Min(img.width, img.height) as real * 0.05 < 1.0;
    }
    CountBandNone(InBorder(img), 0, img.height, 0, img.width);
  }

  /** A metal side needs metal pixels: the metal pixels are among the
      border pixels, and more than a tenth of them. */
  lemma MetalSideHasMetal(img: Image)
    requires HasMetalSide(img)
    ensures 0 < CountBand(MetalAt(img), 0, img.height, 0, img.width) <= CountBand(InBorder(img), 0, img.height, 0, img.width)
  {
    CountBandMono(MetalAt(img), InBorder(img), 0, img.height, 0, img.width);
  }

  // ---------------------------------------------------------------------
  // Black cutout

  /** `isSmartphoneShape`: width / height below 0.56 or above 1.78. */
  predicate SmartphoneShape(w: nat, h: nat) {
    RatioBelow(w as real, h as real, 0.56) || RatioAbove(w as real, h as real, 1.78)
  }

  /** Pixel test: luminance below 30 (the notch scans' black). */
  function DarkAt(img: Image): (int, int) -> bool {
    (x, y) => LumXY(img, x, y).Some? && LumXY(img, x, y).value < 30000
  }

  /** The cutout window: the top 15 % of rows, the central 30 % of columns. */
  function CutoutWindow(img: Image): Window {
    Window(0, (img.height as real * 0.15).Floor, (img.width as real * 0.35).Floor, (img.width as real * 0.65).Floor)
  }

  /** Row test: more than 20 % of the row's scanned pixels are black. */
  function CutoutRow(img: Image, x0: int, x1: int): int -> bool {
    y => Exceeds(CountRow(DarkAt(img), y, x0, x1), if x1 > x0 then x1 - x0 else 0, 1, 5)
  }

  /** `detectBlackCutout`: a phone-shaped mask whose cutout window is more
      than 3 % black, with a run of at least 3 cutout rows. */
  predicate HasBlackCutout(img: Image) {
    var w := CutoutWindow(img);
    && SmartphoneShape(img.width, img.height)
    && Exceeds(CountBand(DarkAt(img), w.y0, w.y1, w.x0, w.x1), Cells(w.y0, w.y1, w.x0, w.x1), 3, 100)
    && MaxRun(CutoutRow(img, w.x0, w.x1), w.y0, w.y1) >= 3
  }

  /** What the cutout test decides: exactly when the mask is phone-shaped,
      more than 3 % of the window is black and three consecutive rows are
      each more than 20 % black. */
  lemma BlackCutoutMeans(img: Image)
    ensures var w := CutoutWindow(img);
      HasBlackCutout(img) <==>
        && SmartphoneShape(img.width, img.height)
        && Exceeds(CountBand(DarkAt(img), w.y0, w.y1, w.x0, w.x1), Cells(w.y0, w.y1, w.x0, w.x1), 3, 100)
        && exists k :: w.y0 <= k && k + 3 <= w.y1 && Three(CutoutRow(img, w.x0, w.x1), k)
  {
    var w := CutoutWindow(img);
    MaxRunAtLeastThree(CutoutRow(img, w.x0, w.x1), w.y0, w.y1);
  }

  /** No cutout is looked for in a mask whose aspect ratio lies in
      [0.56, 1.78]. */
  lemma NoCutoutUnlessElongated(img: Image)
    requires img.height > 0 && 0.56 * img.height as real <= img.width as real <= 1.78 * img.height as real
    ensures !SmartphoneShape(img.width, img.height) && !HasBlackCutout(img)
  {
    RatioCross(img.width as real, img.height as real, 0.56);
    RatioCross(img.width as real, img.height as real, 1.78);
  }

  /** One row of the cutout scan: black pixels and pixels visited. */
  method ScanDarkRow(img: Image, y: int, x0: int, x1: int) returns (black: nat, n: nat)
    ensures black == CountRow(DarkAt(img), y, x0, x1)
    ensures n == if x1 > x0 then x1 - x0 else 0
  {
    black, n := 0, 0;
    var x := x0;
    while x < x1
      invariant x0 <= x && (x <= x1 || x == x0)
      invariant black == CountRow(DarkAt(img), y, x0, x)
      invariant n == x - x0
      decreases x1 - x
    {
      var lum := LumXY(img, x, y);
      n := n + 1;
      if lum.Some? && lum.value < 30000 {
        black := black + 1;
      }
      x := x + 1;
    }
  }

  method DetectBlackCutout(img: Image) returns (hasNotch: bool)
    ensures hasNotch == HasBlackCutout(img)
  {
    if !SmartphoneShape(img.width, img.height) {
      return false;
    }
    var w := CutoutWindow(img);
    var x0, x1 := w.x0, w.x1;
    var black, total := 0, 0;
    var consecutive, longest := 0, 0;
    for y := 0 to w.y1
      invariant black == CountBand(DarkAt(img), 0, y, x0, x1)
      invariant total == Cells(0, y, x0, x1)
      invariant consecutive == RunEnding(CutoutRow(img, x0, x1), 0, y)
      invariant longest == MaxRun(CutoutRow(img, x0, x1), 0, y)
    {
      var rowBlack, rowTotal := ScanDarkRow(img, y, x0, x1);
      black := black + rowBlack;
      CellsStep(0, y, x0, x1);
      total := total + rowTotal;
      if Exceeds(rowBlack, rowTotal, 1, 5) {
        consecutive := consecutive + 1;
        longest := if longest < consecutive then consecutive else longest;
      } else {
        consecutive := 0;
      }
    }
    hasNotch := Exceeds(black, total, 3, 100) && longest >= 3;
  }

  // ---------------------------------------------------------------------
  // Notch centroid

  /** The notch search window: the central half of each side. */
  function NotchWindow(img: Image): Window {
    Window((img.height as real * 0.25).Floor, (img.height as real * 0.75).Floor,
           (img.width as real * 0.25).Floor, (img.width as real * 0.75).Floor)
  }

  /** Black pixels in a window leave the window non-empty. */
  lemma DarkNeedsWindow(img: Image, w: Window)
    requires CountBand(DarkAt(img), w.y0, w.y1, w.x0, w.x1) > 0
    ensures w.y0 < w.y1 && w.x0 < w.x1
  {
    if w.x1 <= w.x0 || w.y1 <= w.y0 {
      CountBandNone(DarkAt(img), w.y0, w.y1, w.x0, w.x1);
    }
  }

  /** The window of a w × h mask is empty unless w and h are positive. */
  lemma NotchWindowNeedsPixels(img: Image)
    ensures var w := NotchWindow(img);
      w.y0 < w.y1 && w.x0 < w.x1 ==> img.width > 0 && img.height > 0
  {
  }

  /** `detectNotchPosition`: the mean position of the window's black
      pixels, as fractions of the width and height, or none without any. */
  function NotchCentroid(img: Image): (c: Option<(real, real)>)
    ensures c.None? <==> CountBand(DarkAt(img), NotchWindow(img).y0, NotchWindow(img).y1, NotchWindow(img).x0, NotchWindow(img).x1) == 0
  {
    var w := NotchWindow(img);
    var n := CountBand(DarkAt(img), w.y0, w.y1, w.x0, w.x1);
    if n == 0 then None
    else
      DarkNeedsWindow(img, w);
      NotchWindowNeedsPixels(img);
      var sx := SumBandX(DarkAt(img), w.y0, w.y1, w.x0, w.x1);
      var sy := SumBandY(DarkAt(img), w.y0, w.y1, w.x0, w.x1);
      Some((sx as real / n as real / img.width as real, sy as real / n as real / img.height as real))
  }

  /** One row of the notch scan: the black pixels and the sum of their x. */
  method ScanNotchRow(img: Image, y: int, x0: int, x1: int) returns (count: nat, sumX: int)
    ensures count == CountRow(DarkAt(img), y, x0, x1)
    ensures sumX == SumRowX(DarkAt(img), y, x0, x1)
  {
    count, sumX := 0, 0;
    var x := x0;
    while x < x1
      invariant x0 <= x && (x <= x1 || x == x0)
      invariant count == CountRow(DarkAt(img), y, x0, x)
      invariant sumX == SumRowX(DarkAt(img), y, x0, x)
      decreases x1 - x
    {
      var lum := LumXY(img, x, y);
      if lum.Some? && lum.value < 30000 {
        sumX := sumX + x;
        count := count + 1;
      }
      x := x + 1;
    }
  }

  method DetectNotchPosition(img: Image) returns (position: Option<(real, real)>)
    ensures position == NotchCentroid(img)
  {
    var w := NotchWindow(img);
    var y0, y1, x0, x1 := w.y0, w.y1, w.x0, w.x1;
    var sumX, sumY, count := 0, 0, 0;
    var y := y0;
    while y < y1
      invariant y0 <= y && (y <= y1 || y == y0)
      invariant count == CountBand(DarkAt(img), y0, y, x0, x1)
      invariant sumX == SumBandX(DarkAt(img), y0, y, x0, x1)
      invariant sumY == SumBandY(DarkAt(img), y0, y, x0, x1)
      decreases y1 - y
    {
      var rowCount, rowSumX := ScanNotchRow(img, y, x0, x1);
      sumX, sumY, count := sumX + rowSumX, sumY + y * rowCount, count + rowCount;
      y := y + 1;
    }
    if count == 0 {
      return None;
    }
    DarkNeedsWindow(img, w);
    position := Some((sumX as real / count as real / img.width as real, sumY as real / count as real / img.height as real));
  }

  /** The centroid lies in the scanned window: between its first and last
      column and row, as fractions, hence below 0.75 on both axes. */
  lemma NotchInWindow(img: Image)
    requires NotchCentroid(img).Some?
    ensures var w := NotchWindow(img);
      var (cx, cy) := NotchCentroid(img).value;
      && img.width > 0 && img.height > 0
      && w.x0 as real / img.width as real <= cx <= (w.x1 - 1) as real / img.width as real
      && w.y0 as real / img.height as real <= cy <= (w.y1 - 1) as real / img.height as real
      && 0.0 <= cx < 0.75 && 0.0 <= cy < 0.75
  {
    var w := NotchWindow(img);
    var f := DarkAt(img);
    var n := CountBand(f, w.y0, w.y1, w.x0, w.x1);
    DarkNeedsWindow(img, w);
    SumBandBounds(f, w.y0, w.y1, w.x0, w.x1);
    AxisFraction(SumBandX(f, w.y0, w.y1, w.x0, w.x1), n, w.x0, w.x1 - 1, img.width);
    AxisFraction(SumBandY(f, w.y0, w.y1, w.x0, w.x1), n, w.y0, w.y1 - 1, img.height);
  }

  /** One axis of the centroid: a sum of n positions from lo to hi, over a
      side whose window ends at floor(0.75 side). */
  lemma AxisFraction(s: int, n: int, lo: int, hi: int, side: int)
    requires n > 0 && side > 0 && lo == (side as real * 0.25).Floor && hi == (side as real * 0.75).Floor - 1
    requires lo * n <= s <= hi * n
    ensures var c := s as real / n as real / side as real;
      lo as real / side as real <= c <= hi as real / side as real && 0.0 <= c < 0.75
  {
    assert 0 <= lo;
    assert (hi as real) < 0.75 * side as real;
    MeanBetween(s, n, lo, hi);
    Fraction(s as real / n as real, lo as real, hi as real, side as real, 0.75);
  }

  /** For a mask at least 20 pixels on a side, the centroid along that side
      is at least 0.2 (and below 0.75): the notch is never found in the top
      or side fifth that `detectDeviceVerticalDirection` tests for. */
  lemma NotchAwayFromEdges(img: Image)
    requires NotchCentroid(img).Some?
    ensures img.width >= 20 ==> 0.2 <= NotchCentroid(img).value.0 <= 0.8
    ensures img.height >= 20 ==> 0.2 <= NotchCentroid(img).value.1
  {
    NotchInWindow(img);
    var w := NotchWindow(img);
    if img.width >= 20 {
      QuarterFloor(img.width, w.x0);
    }
    if img.height >= 20 {
      QuarterFloor(img.height, w.y0);
    }
  }

  /** A sum between lo and hi times n has its mean between lo and hi. */
  lemma MeanBetween(s: int, n: int, lo: int, hi: int)
    requires n > 0 && lo * n <= s <= hi * n
    ensures lo as real <= s as real / n as real <= hi as real
  {
    var m, N := s as real / n as real, n as real;
    assert m * N == s as real;
    assert (m - lo as real) * N >= 0.0;
    assert (hi as real - m) * N >= 0.0;
    NonNegFactor(m - lo as real, N);
    NonNegFactor(hi as real - m, N);
  }

  /** A product with a positive factor is non-negative only when the other
      factor is. */
  lemma NonNegFactor(a: real, d: real)
    requires d > 0.0 && a * d >= 0.0
    ensures a >= 0.0
  {
  }

  /** A position between lo and hi, divided by a side d with hi < t d,
      lies between lo / d and hi / d, below t. */
  lemma Fraction(m: real, lo: real, hi: real, d: real, t: real)
    requires d > 0.0 && 0.0 <= lo <= m <= hi && hi < t * d
    ensures lo / d <= m / d <= hi / d && 0.0 <= m / d < t
  {
    assert m / d * d == m && lo / d * d == lo && hi / d * d == hi;
    NonNegFactor(m / d - lo / d, d);
    NonNegFactor(hi / d - m / d, d);
    NonNegFactor(m / d, d);
    assert (t - m / d) * d > 0.0;
    NonNegFactor(t - m / d, d);
    assert t - m / d != 0.0;
  }

  /** floor(s / 4) / s >= 0.2 for s >= 20. */
  lemma QuarterFloor(s: int, q: int)
    requires s >= 20 && q == (s as real * 0.25).Floor
    ensures q as real / s as real >= 0.2
  {
    assert q as real > s as real * 0.25 - 1.0;
    assert q as real >= 0.2 * s as real;
    var r := q as real / s as real;
    assert r * s as real == q as real;
    assert (r - 0.2) * s as real >= 0.0;
    NonNegFactor(r - 0.2, s as real);
  }
}
