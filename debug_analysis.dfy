/** Debug analyses of a composited device screen: how many pixels along the
    screen's edges show white instead of the uploaded image (and so how
    much bleed the image needs), and which way the device in a mask points
    and how far an image should turn to match it. */
module DebugAnalysis {
  import opened Raster
  import opened PixelScan
  import opened JsNumber
  import opened DeviceOrientation

  // ---------------------------------------------------------------------
  // White margins

  /** Rows or columns checked at each edge. */
  const EdgeDepth: int := 10

  /** The pixel at (x, y) of a buffer w pixels wide: its R + G + B, read at
      the flat index (y w + x) 4 without a range check, so an x outside the
      row reads a pixel of the next or previous row and a read outside the
      buffer is NaN (None). */
  function SumXY(data: seq<int>, w: int, x: int, y: int): Option<int> {
    RgbSumAt(Image(0, 0, data), Pos(w, x, y))
  }

  /** The mask is bright, (R + G + B) / 3 > 200: an edge pixel of the screen. */
  function ScreenEdge(mask: seq<int>, w: int): (int, int) -> bool {
    (x, y) => var s := SumXY(mask, w, x, y); s.Some? && s.value > 600
  }

  /** An edge pixel where the composited image is white, (R + G + B) / 3 > 240. */
  function WhiteGap(mask: seq<int>, data: seq<int>, w: int): (int, int) -> bool {
    (x, y) => ScreenEdge(mask, w)(x, y) && var s := SumXY(data, w, x, y); s.Some? && s.value > 720
  }

  /** A pixel test with its arguments swapped, so that a scan that runs
      over columns, y inside x, is a band of "rows" indexed by x. */
  function Transposed(f: (int, int) -> bool): (int, int) -> bool {
    (a, b) => f(b, a)
  }

  /** Edge pixels and white pixels found by one of the four scans. */
  datatype SideCount = SideCount(edges: nat, whites: nat)

  /** Rows [y0, y1), each over x in [0, w). */
  function RowScan(mask: seq<int>, data: seq<int>, w: int, y0: int, y1: int): SideCount {
    SideCount(CountBand(ScreenEdge(mask, w), y0, y1, 0, w), CountBand(WhiteGap(mask, data, w), y0, y1, 0, w))
  }

  /** Columns [x0, x1), each over y in [0, h). */
  function ColumnScan(mask: seq<int>, data: seq<int>, w: int, h: int, x0: int, x1: int): SideCount {
    SideCount(CountBand(Transposed(ScreenEdge(mask, w)), x0, x1, 0, h),
              CountBand(Transposed(WhiteGap(mask, data, w)), x0, x1, 0, h))
  }

  datatype Margins = Margins(top: nat, bottom: nat, left: nat, right: nat)

  datatype Recommendation = ApplyBleed(percent: int) | CentreHorizontally | CentreVertically

  datatype WhiteMarginAnalysis = WhiteMarginAnalysis(
    deviceIndex: int, hasWhiteMargin: bool, marginLocations: Margins, requiredBleedPercentage: int,
    detectedWhitePixels: nat, totalEdgePixels: nat, whitePixelRatio: real, recommendations: seq<Recommendation>)

  /** The bleed every device type starts from, in percent. */
  function BaseBleed(deviceType: string): (b: int)
    ensures b == 5 || b == 7 || b == 10
  {
    if deviceType == "laptop" then 10 else if deviceType == "tablet" then 7 else 5
  }

  /** `Math.ceil`. */
  function Ceil(x: real): (n: int)
    ensures x <= n as real < x + 1.0
  {
    var f := x.Floor;
    if f as real == x then f else f + 1
  }

  function Max4(a: nat, b: nat, c: nat, d: nat): (m: nat)
    ensures m >= a && m >= b && m >= c && m >= d
    ensures m == a || m == b || m == c || m == d
  {
    var ab := if a >= b then a else b;
    var cd := if c >= d then c else d;
    if ab >= cd then ab else cd
  }

  /** The bleed for a margin: the base plus the widest side's white pixels
      as a percentage of 2 · 10 · (w + h), rounded up. */
  function RequiredBleed(deviceType: string, m: Margins, w: nat, h: nat): int
    requires w + h > 0
  {
    var maxMargin := Max4(m.top, m.bottom, m.left, m.right);
    var edgePixelCount := EdgeDepth * (w + h) * 2;
    BaseBleed(deviceType) + Ceil(maxMargin as real / edgePixelCount as real * 100.0)
  }

  /** The advice: the bleed, then a left/right imbalance (one side more than
      twice the other), then a top/bottom one. */
  function Advice(bleed: int, m: Margins): seq<Recommendation> {
    [ApplyBleed(bleed)]
    + (if m.left > m.right * 2 || m.right > m.left * 2 then [CentreHorizontally] else [])
    + (if m.top > m.bottom * 2 || m.bottom > m.top * 2 then [CentreVertically] else [])
  }

  /** `detectWhiteMargins` on a w × h canvas with image bytes data and mask
      bytes mask: the top and bottom ten rows and the left and right ten
      columns are scanned and their counts summarised. */
  function WhiteMargins(data: seq<int>, mask: seq<int>, w: nat, h: nat, deviceIndex: int, deviceType: string): WhiteMarginAnalysis {
    Summarize(RowScan(mask, data, w, 0, EdgeDepth), RowScan(mask, data, w, h - EdgeDepth, h),
              ColumnScan(mask, data, w, h, 0, EdgeDepth), ColumnScan(mask, data, w, h, w - EdgeDepth, w),
              w, h, deviceIndex, deviceType)
  }

  /** The summary of the four scans: the ratio of white to edge pixels, 0
      without edge pixels, must exceed 1 % for a margin, which then asks
      for a bleed and advice. */
  function Summarize(top: SideCount, bottom: SideCount, left: SideCount, right: SideCount,
                     w: nat, h: nat, deviceIndex: int, deviceType: string): WhiteMarginAnalysis {
    var margins := Margins(top.whites, bottom.whites, left.whites, right.whites);
    var whites := top.whites + bottom.whites + left.whites + right.whites;
    var total := top.edges + bottom.edges + left.edges + right.edges;
    var ratio := if total > 0 then whites as real / total as real else 0.0;
    var has := ratio > 0.01;
    var bleed := if has && w + h > 0 then RequiredBleed(deviceType, margins, w, h) else 0;
    WhiteMarginAnalysis(deviceIndex, has, margins, bleed, whites, total, ratio, if has then Advice(bleed, margins) else [])
  }

  /** One row of a top or bottom scan. */
  method ScanRow(data: seq<int>, mask: seq<int>, w: nat, y: int) returns (edges: nat, whites: nat)
    ensures edges == CountRow(ScreenEdge(mask, w), y, 0, w)
    ensures whites == CountRow(WhiteGap(mask, data, w), y, 0, w)
  {
    edges, whites := 0, 0;
    for x := 0 to w
      invariant edges == CountRow(ScreenEdge(mask, w), y, 0, x)
      invariant whites == CountRow(WhiteGap(mask, data, w), y, 0, x)
    {
      var maskSum := SumXY(mask, w, x, y);
      if maskSum.Some? && maskSum.value > 600 {
        edges := edges + 1;
        var sum := SumXY(data, w, x, y);
        if sum.Some? && sum.value > 720 {
          whites := whites + 1;
        }
      }
    }
  }

  /** One column of a left or right scan. */
  method ScanColumn(data: seq<int>, mask: seq<int>, w: nat, h: nat, x: int) returns (edges: nat, whites: nat)
    ensures edges == CountRow(Transposed(ScreenEdge(mask, w)), x, 0, h)
    ensures whites == CountRow(Transposed(WhiteGap(mask, data, w)), x, 0, h)
  {
    edges, whites := 0, 0;
    for y := 0 to h
      invariant edges == CountRow(Transposed(ScreenEdge(mask, w)), x, 0, y)
      invariant whites == CountRow(Transposed(WhiteGap(mask, data, w)), x, 0, y)
    {
      var maskSum := SumXY(mask, w, x, y);
      if maskSum.Some? && maskSum.value > 600 {
        edges := edges + 1;
        var sum := SumXY(data, w, x, y);
        if sum.Some? && sum.value > 720 {
          whites := whites + 1;
        }
      }
    }
  }

  /** The rows [y0, y1) scanned in turn. */
  method ScanRows(data: seq<int>, mask: seq<int>, w: nat, y0: int, y1: int) returns (c: SideCount)
    ensures c == RowScan(mask, data, w, y0, y1)
  {
    var edges, whites := 0, 0;
    var y := y0;
    while y < y1
      invariant y0 <= y && (y <= y1 || y == y0)
      invariant edges == CountBand(ScreenEdge(mask, w), y0, y, 0, w)
      invariant whites == CountBand(WhiteGap(mask, data, w), y0, y, 0, w)
      decreases y1 - y
    {
      var e, v := ScanRow(data, mask, w, y);
      edges, whites := edges + e, whites + v;
      y := y + 1;
    }
    c := SideCount(edges, whites);
  }

  /** The columns [x0, x1) scanned in turn. */
  method ScanColumns(data: seq<int>, mask: seq<int>, w: nat, h: nat, x0: int, x1: int) returns (c: SideCount)
    ensures c == ColumnScan(mask, data, w, h, x0, x1)
  {
    var edges, whites := 0, 0;
    var x := x0;
    while x < x1
      invariant x0 <= x && (x <= x1 || x == x0)
      invariant edges == CountBand(Transposed(ScreenEdge(mask, w)), x0, x, 0, h)
      invariant whites == CountBand(Transposed(WhiteGap(mask, data, w)), x0, x, 0, h)
      decreases x1 - x
    {
      var e, v := ScanColumn(data, mask, w, h, x);
      edges, whites := edges + e, whites + v;
      x := x + 1;
    }
    c := SideCount(edges, whites);
  }

  /** `detectWhiteMargins` as the source computes it: four scans adding to
      the same counters, then the ratio, the bleed and the advice. */
  method DetectWhiteMargins(data: seq<int>, mask: seq<int>, w: nat, h: nat, deviceIndex: int, deviceType: string)
    returns (r: WhiteMarginAnalysis)
    ensures r == WhiteMargins(data, mask, w, h, deviceIndex, deviceType)
  {
    var top := ScanRows(data, mask, w, 0, EdgeDepth);
    var bottom := ScanRows(data, mask, w, h - EdgeDepth, h);
    var left := ScanColumns(data, mask, w, h, 0, EdgeDepth);
    var right := ScanColumns(data, mask, w, h, w - EdgeDepth, w);
    r := SummarizeScans(top, bottom, left, right, w, h, deviceIndex, deviceType);
  }

  /** The tail of `detectWhiteMargins`: the totals, the ratio, the bleed
      and the advice. */
  method SummarizeScans(top: SideCount, bottom: SideCount, left: SideCount, right: SideCount,
                        w: nat, h: nat, deviceIndex: int, deviceType: string) returns (r: WhiteMarginAnalysis)
    ensures r == Summarize(top, bottom, left, right, w, h, deviceIndex, deviceType)
  {
    var whitePixelCount := top.whites + bottom.whites + left.whites + right.whites;
    var totalEdgePixels := top.edges + bottom.edges + left.edges + right.edges;
    var margins := Margins(top.whites, bottom.whites, left.whites, right.whites);

    var whitePixelRatio := if totalEdgePixels > 0 then whitePixelCount as real / totalEdgePixels as real else 0.0;
    var hasWhiteMargin := whitePixelRatio > 0.01;

    var requiredBleedPercentage := 0;
    if hasWhiteMargin && w + h > 0 {
      var maxMargin := Max4(margins.top, margins.bottom, margins.left, margins.right);
      var edgePixelCount := EdgeDepth * (w + h) * 2;
      var marginRatio := maxMargin as real / edgePixelCount as real;
      requiredBleedPercentage := BaseBleed(deviceType) + Ceil(marginRatio * 100.0);
      assert requiredBleedPercentage == RequiredBleed(deviceType, margins, w, h);
    }

    var recommendations: seq<Recommendation> := [];
    if hasWhiteMargin {
      recommendations := recommendations + [ApplyBleed(requiredBleedPercentage)];
      if margins.left > margins.right * 2 || margins.right > margins.left * 2 {
        recommendations := recommendations + [CentreHorizontally];
      }
      if margins.top > margins.bottom * 2 || margins.bottom > margins.top * 2 {
        recommendations := recommendations + [CentreVertically];
      }
      AdviceSteps(requiredBleedPercentage, margins);
    }
    r := WhiteMarginAnalysis(deviceIndex, hasWhiteMargin, margins, requiredBleedPercentage,
                             whitePixelCount, totalEdgePixels, whitePixelRatio, recommendations);
  }

  /** The advice is the three pushes in turn. */
  lemma AdviceSteps(bleed: int, m: Margins)
    ensures var h, v := m.left > m.right * 2 || m.right > m.left * 2, m.top > m.bottom * 2 || m.bottom > m.top * 2;
      Advice(bleed, m) == if h && v then [ApplyBleed(bleed), CentreHorizontally, CentreVertically]
                          else if h then [ApplyBleed(bleed), CentreHorizontally]
                          else if v then [ApplyBleed(bleed), CentreVertically]
                          else [ApplyBleed(bleed)]
  {
  }

  /** Every white pixel counted is an edge pixel counted: the white pixels
      are the four sides' margins added up and never outnumber the edge
      pixels, side by side and in total. */
  lemma WhitesWithinEdges(data: seq<int>, mask: seq<int>, w: nat, h: nat, deviceIndex: int, deviceType: string)
    ensures var r := WhiteMargins(data, mask, w, h, deviceIndex, deviceType);
      && r.detectedWhitePixels == r.marginLocations.top + r.marginLocations.bottom
                                  + r.marginLocations.left + r.marginLocations.right
      && r.detectedWhitePixels <= r.totalEdgePixels
      && 0.0 <= r.whitePixelRatio <= 1.0
  {
    var (top, bottom) := (RowScan(mask, data, w, 0, EdgeDepth), RowScan(mask, data, w, h - EdgeDepth, h));
    var (left, right) := (ColumnScan(mask, data, w, h, 0, EdgeDepth), ColumnScan(mask, data, w, h, w - EdgeDepth, w));
    WhiteInEdgeRows(data, mask, w, 0, EdgeDepth);
    WhiteInEdgeRows(data, mask, w, h - EdgeDepth, h);
    WhiteInEdgeColumns(data, mask, w, h, 0, EdgeDepth);
    WhiteInEdgeColumns(data, mask, w, h, w - EdgeDepth, w);
    SummaryCounts(top, bottom, left, right, w, h, deviceIndex, deviceType);
  }

  lemma SummaryCounts(top: SideCount, bottom: SideCount, left: SideCount, right: SideCount,
                      w: nat, h: nat, deviceIndex: int, deviceType: string)
    requires top.whites <= top.edges && bottom.whites <= bottom.edges
    requires left.whites <= left.edges && right.whites <= right.edges
    ensures var r := Summarize(top, bottom, left, right, w, h, deviceIndex, deviceType);
      && r.detectedWhitePixels == r.marginLocations.top + r.marginLocations.bottom
                                  + r.marginLocations.left + r.marginLocations.right
      && r.detectedWhitePixels <= r.totalEdgePixels
      && 0.0 <= r.whitePixelRatio <= 1.0
  {
    var r := Summarize(top, bottom, left, right, w, h, deviceIndex, deviceType);
    if r.totalEdgePixels > 0 {
      RatioAtMostOne(r.detectedWhitePixels, r.totalEdgePixels);
    }
  }

  lemma WhiteInEdgeRows(data: seq<int>, mask: seq<int>, w: nat, y0: int, y1: int)
    ensures RowScan(mask, data, w, y0, y1).whites <= RowScan(mask, data, w, y0, y1).edges
  {
    CountBandMono(WhiteGap(mask, data, w), ScreenEdge(mask, w), y0, y1, 0, w);
  }

  lemma WhiteInEdgeColumns(data: seq<int>, mask: seq<int>, w: nat, h: nat, x0: int, x1: int)
    ensures ColumnScan(mask, data, w, h, x0, x1).whites <= ColumnScan(mask, data, w, h, x0, x1).edges
  {
    CountBandMono(Transposed(WhiteGap(mask, data, w)), Transposed(ScreenEdge(mask, w)), x0, x1, 0, h);
  }

  lemma RatioAtMostOne(n: nat, d: nat)
    requires 0 < d && n <= d
    ensures 0.0 <= n as real / d as real <= 1.0
  {
    RatioCross(n as real, d as real, 1.0);
    RatioCross(n as real, d as real, 0.0);
  }

  /** A margin is reported exactly when white pixels are more than 1 % of
      the edge pixels, which needs some edge pixel. */
  lemma MarginIffOverOnePercent(top: SideCount, bottom: SideCount, left: SideCount, right: SideCount,
                                w: nat, h: nat, deviceIndex: int, deviceType: string)
    ensures var r := Summarize(top, bottom, left, right, w, h, deviceIndex, deviceType);
      (r.hasWhiteMargin <==> r.totalEdgePixels > 0 && 100 * r.detectedWhitePixels > r.totalEdgePixels)
      && (r.totalEdgePixels == 0 ==> r.whitePixelRatio == 0.0)
  {
    var r := Summarize(top, bottom, left, right, w, h, deviceIndex, deviceType);
    if r.totalEdgePixels > 0 {
      RatioCross(r.detectedWhitePixels as real, r.totalEdgePixels as real, 0.01);
    }
  }

  /** A canvas without pixels has nothing to scan. */
  lemma EmptyCanvasScansNothing(data: seq<int>, mask: seq<int>, w: nat, h: nat)
    requires w + h == 0
    ensures RowScan(mask, data, w, 0, EdgeDepth).edges == 0 && RowScan(mask, data, w, h - EdgeDepth, h).edges == 0
    ensures ColumnScan(mask, data, w, h, 0, EdgeDepth).edges == 0 && ColumnScan(mask, data, w, h, w - EdgeDepth, w).edges == 0
  {
    CountBandNone(ScreenEdge(mask, w), 0, EdgeDepth, 0, w);
    CountBandNone(ScreenEdge(mask, w), h - EdgeDepth, h, 0, w);
    CountBandNone(Transposed(ScreenEdge(mask, w)), 0, EdgeDepth, 0, h);
    CountBandNone(Transposed(ScreenEdge(mask, w)), w - EdgeDepth, w, 0, h);
  }

  /** No margin asks for no bleed and no advice; a margin asks for more
      than the device's base bleed and puts the bleed first in the advice,
      followed by at most the two centring hints. */
  lemma BleedAndAdvice(data: seq<int>, mask: seq<int>, w: nat, h: nat, deviceIndex: int, deviceType: string)
    ensures var r := WhiteMargins(data, mask, w, h, deviceIndex, deviceType);
      && (!r.hasWhiteMargin ==> r.requiredBleedPercentage == 0 && r.recommendations == [])
      && (r.hasWhiteMargin ==> r.requiredBleedPercentage > BaseBleed(deviceType)
                               && 1 <= |r.recommendations| <= 3
                               && r.recommendations[0] == ApplyBleed(r.requiredBleedPercentage))
  {
    if w + h == 0 {
      EmptyCanvasScansNothing(data, mask, w, h);
    }
    SummaryBleed(RowScan(mask, data, w, 0, EdgeDepth), RowScan(mask, data, w, h - EdgeDepth, h),
                 ColumnScan(mask, data, w, h, 0, EdgeDepth), ColumnScan(mask, data, w, h, w - EdgeDepth, w),
                 w, h, deviceIndex, deviceType);
  }

  lemma SummaryBleed(top: SideCount, bottom: SideCount, left: SideCount, right: SideCount,
                     w: nat, h: nat, deviceIndex: int, deviceType: string)
    requires w + h == 0 ==> top.edges + bottom.edges + left.edges + right.edges == 0
    ensures var r := Summarize(top, bottom, left, right, w, h, deviceIndex, deviceType);
      && (!r.hasWhiteMargin ==> r.requiredBleedPercentage == 0 && r.recommendations == [])
      && (r.hasWhiteMargin ==> r.requiredBleedPercentage > BaseBleed(deviceType)
                               && 1 <= |r.recommendations| <= 3
                               && r.recommendations[0] == ApplyBleed(r.requiredBleedPercentage))
  {
    var r := Summarize(top, bottom, left, right, w, h, deviceIndex, deviceType);
    if r.hasWhiteMargin {
      assert r.totalEdgePixels > 0;
      var m := r.marginLocations;
      RatioCross(r.detectedWhitePixels as real, r.totalEdgePixels as real, 0.01);
      assert Max4(m.top, m.bottom, m.left, m.right) > 0;
      PositiveShare(Max4(m.top, m.bottom, m.left, m.right), EdgeDepth * (w + h) * 2);
    }
  }

  lemma PositiveShare(n: nat, d: nat)
    requires n > 0 && d > 0
    ensures Ceil(n as real / d as real * 100.0) >= 1
  {
    RatioCross(n as real, d as real, 0.0);
  }

  /** The margins are balanced when neither side has more than twice the
      other's white pixels; equal margins always are. */
  lemma EqualMarginsNeedNoCentring(bleed: int, m: Margins)
    requires m.left == m.right && m.top == m.bottom
    ensures Advice(bleed, m) == [ApplyBleed(bleed)]
  {
  }

  // ---------------------------------------------------------------------
  // Device orientation

  /** `(R + G + B) / 3 > 200`: a screen pixel of the mask. */
  function Bright(mask: Image): (int, int) -> bool {
    (x, y) => var s := RgbSumAt(mask, Pos(mask.width, x, y)); s.Some? && s.value > 600
  }

  /** `(R + G + B) / 3 < 30`: a notch pixel. The scan tests it only in
      the `else if` after brightness, which it excludes on its own. */
  function Dark(mask: Image): (int, int) -> bool {
    (x, y) => var s := RgbSumAt(mask, Pos(mask.width, x, y)); s.Some? && s.value < 90
  }

  /** The screen pixels of the mask in row-major order: `whitePixels`. */
  function ScreenPixels(mask: Image): seq<(int, int)> {
    BandHits(Bright(mask), 0, mask.height, 0, mask.width)
  }

  /** The notch pixels of the mask in row-major order: `blackPixels`. */
  function NotchPixels(mask: Image): seq<(int, int)> {
    BandHits(Dark(mask), 0, mask.height, 0, mask.width)
  }

  /** The two lists hold every screen (notch) pixel of the mask once, in
      the order the scan meets them, and nothing else. */
  lemma CollectedPixels(mask: Image)
    ensures forall p :: p in ScreenPixels(mask) <==> InGrid(mask.width, mask.height, p.0, p.1) && Bright(mask)(p.0, p.1)
    ensures forall p :: p in NotchPixels(mask) <==> InGrid(mask.width, mask.height, p.0, p.1) && Dark(mask)(p.0, p.1)
    ensures ScanOrdered(ScreenPixels(mask)) && ScanOrdered(NotchPixels(mask))
    ensures |ScreenPixels(mask)| == CountBand(Bright(mask), 0, mask.height, 0, mask.width)
    ensures |NotchPixels(mask)| == CountBand(Dark(mask), 0, mask.height, 0, mask.width)
  {
    BandHitsSpec(Bright(mask), 0, mask.height, 0, mask.width);
    BandHitsSpec(Dark(mask), 0, mask.height, 0, mask.width);
  }

  /** The loop over the whole mask, row by row, collecting the bright and
      the dark pixels in scan order. */
  method CollectPixels(mask: Image) returns (white: seq<(int, int)>, black: seq<(int, int)>)
    ensures white == ScreenPixels(mask) && black == NotchPixels(mask)
  {
    white, black := [], [];
    for y := 0 to mask.height
      invariant white == BandHits(Bright(mask), 0, y, 0, mask.width)
      invariant black == BandHits(Dark(mask), 0, y, 0, mask.width)
    {
      var rowWhite, rowBlack := CollectRow(mask, y);
      white, black := white + rowWhite, black + rowBlack;
    }
  }

  /** One row of the collection: its bright and its dark pixels, left to
      right. */
  method CollectRow(mask: Image, y: int) returns (white: seq<(int, int)>, black: seq<(int, int)>)
    ensures white == RowHits(Bright(mask), y, 0, mask.width)
    ensures black == RowHits(Dark(mask), y, 0, mask.width)
  {
    white, black := [], [];
    for x := 0 to mask.width
      invariant white == RowHits(Bright(mask), y, 0, x)
      invariant black == RowHits(Dark(mask), y, 0, x)
    {
      var sum := RgbSumAt(mask, Pos(mask.width, x, y));
      if sum.Some? && sum.value > 600 {
        white := white + [(x, y)];
      } else if sum.Some? && sum.value < 90 {
        black := black + [(x, y)];
      }
    }
  }

  /** No pixel is both a screen pixel and a notch pixel. */
  lemma BrightAndDarkDisjoint(mask: Image, x: int, y: int)
    ensures !(Bright(mask)(x, y) && Dark(mask)(x, y))
  {
  }

  datatype MaskShape = PortraitMask | LandscapeMask | DiagonalMask

  /** Portrait below 0.75, landscape above 1.33, diagonal in between (and
      for a NaN ratio). */
  function ShapeOf(w: nat, h: nat): (s: MaskShape)
    ensures s == PortraitMask <==> RatioBelow(w as real, h as real, 0.75)
    ensures s == LandscapeMask <==> RatioAbove(w as real, h as real, 1.33)
  {
    if RatioBelow(w as real, h as real, 0.75) then PortraitMask
    else if RatioAbove(w as real, h as real, 1.33) then LandscapeMask
    else DiagonalMask
  }

  /** An angle in degrees moved into [0, 360) once: a negative one gains 360. */
  function NormalizeAngle(a: real): (r: real)
    ensures -360.0 <= a < 360.0 ==> 0.0 <= r < 360.0
    ensures 0.0 <= a ==> r == a
  {
    if a < 0.0 then a + 360.0 else a
  }

  /** The device's rotation from the angle of its major axis: quarter
      turns for portrait and landscape masks (all boundaries strict, so an
      axis exactly at 45, 135, 225 or 315 degrees falls to the last case),
      the rounded angle itself for a diagonal one. */
  function DeviceRotation(shape: MaskShape, axis: real): (r: int)
    ensures shape != DiagonalMask ==> r in {0, 90, 180, 270}
    ensures shape == DiagonalMask ==> axis - 0.5 < r as real <= axis + 0.5
  {
    match shape
    case PortraitMask =>
      if axis > 315.0 || axis < 45.0 then 0
      else if 135.0 < axis < 225.0 then 180
      else if 45.0 < axis < 135.0 then 90
      else 270
    case LandscapeMask =>
      if 45.0 < axis < 135.0 then 90
      else if 225.0 < axis < 315.0 then 270
      else if 135.0 < axis < 225.0 then 180
      else 0
    case DiagonalMask => Round(axis)
  }

  /** The rotation to apply to the image: for a smartphone with more than
      100 notch pixels, by the notch's angle (left half-turn region 90,
      bottom 180, right -90, top 0); otherwise undoing the device's
      rotation. */
  function RecommendedRotation(deviceType: string, darkCount: nat, notchAngle: real, deviceRotation: int): (r: int)
    ensures deviceType == "smartphone" && darkCount > 100 ==> r in {0, 90, 180, -90}
    ensures deviceType == "smartphone" && darkCount > 100 && 0.0 < notchAngle <= 90.0 ==> r == 0
    ensures !(deviceType == "smartphone" && darkCount > 100) ==> r == -deviceRotation
  {
    if deviceType == "smartphone" && darkCount > 100 then
      if 90.0 < notchAngle <= 180.0 then 90
      else if 180.0 < notchAngle <= 270.0 then 180
      else if notchAngle > 270.0 || notchAngle <= 0.0 then -90
      else 0
    else -deviceRotation
  }

  datatype OrientationAnalysis = OrientationAnalysis(
    deviceIndex: int, deviceType: string, deviceRotation: int, notchAngle: real,
    recommendedImageRotation: int, majorAxisAngle: real, width: nat, height: nat, aspectRatio: Num,
    isPortrait: bool, isLandscape: bool, isDiagonal: bool)

  /** `analyzeDeviceOrientation` given the axis angle `atan2(2 cov_xy,
      cov_xx - cov_yy) / 2` in degrees and the notch's `atan2` angle in
      degrees, both computed from the collected pixels; the notch angle is
      used only with more than 100 dark pixels and is 0 otherwise. */
  function OrientationOf(w: nat, h: nat, darkCount: nat, axisDeg: real, notchDeg: real,
                         deviceIndex: int, deviceType: string): OrientationAnalysis {
    var majorAxisAngle := NormalizeAngle(axisDeg);
    var notchAngle := if darkCount > 100 then NormalizeAngle(notchDeg) else 0.0;
    var shape := ShapeOf(w, h);
    var rotation := DeviceRotation(shape, majorAxisAngle);
    OrientationAnalysis(deviceIndex, deviceType, rotation, notchAngle,
                        RecommendedRotation(deviceType, darkCount, notchAngle, rotation),
                        majorAxisAngle, w, h, Quotient(w as real, h as real),
                        shape == PortraitMask, shape == LandscapeMask, shape == DiagonalMask)
  }

  /** The analysis as the source runs it: collect the pixels, hand them to
      the principal-axis and notch-angle computations, then bucket. */
  method AnalyzeDeviceOrientation(mask: Image, deviceIndex: int, deviceType: string,
                                  axisAngle: seq<(int, int)> -> real,
                                  notchAngleOf: (seq<(int, int)>, seq<(int, int)>) -> real)
    returns (r: OrientationAnalysis)
    ensures r == OrientationOf(mask.width, mask.height, |NotchPixels(mask)|,
                               axisAngle(ScreenPixels(mask)), notchAngleOf(ScreenPixels(mask), NotchPixels(mask)),
                               deviceIndex, deviceType)
  {
    var white, black := CollectPixels(mask);
    var majorAxisAngle := axisAngle(white);
    if majorAxisAngle < 0.0 {
      majorAxisAngle := majorAxisAngle + 360.0;
    }
    var notchAngle := 0.0;
    if |black| > 100 {
      notchAngle := notchAngleOf(white, black);
      if notchAngle < 0.0 {
        notchAngle := notchAngle + 360.0;
      }
    }
    var shape := ShapeOf(mask.width, mask.height);
    var deviceRotation := DeviceRotation(shape, majorAxisAngle);
    var recommended := RecommendedRotation(deviceType, |black|, notchAngle, deviceRotation);
    r := OrientationAnalysis(deviceIndex, deviceType, deviceRotation, notchAngle, recommended,
                             majorAxisAngle, mask.width, mask.height, Quotient(mask.width as real, mask.height as real),
                             shape == PortraitMask, shape == LandscapeMask, shape == DiagonalMask);
  }

  /** Exactly one of portrait, landscape and diagonal holds. */
  lemma OneShape(w: nat, h: nat, darkCount: nat, axisDeg: real, notchDeg: real, deviceIndex: int, deviceType: string)
    ensures var r := OrientationOf(w, h, darkCount, axisDeg, notchDeg, deviceIndex, deviceType);
      (if r.isPortrait then 1 else 0) + (if r.isLandscape then 1 else 0) + (if r.isDiagonal then 1 else 0) == 1
      && (r.isPortrait || r.isLandscape ==> r.deviceRotation in {0, 90, 180, 270})
  {
  }

  /** Half an `atan2` angle lies in [-90, 90] degrees, so the normalised
      axis is never within 90 degrees of 180 and no device is ever found
      upside down: the 180 case is unreachable. */
  lemma NeverUpsideDown(w: nat, h: nat, darkCount: nat, axisDeg: real, notchDeg: real, deviceIndex: int, deviceType: string)
    requires -90.0 <= axisDeg <= 90.0
    ensures OrientationOf(w, h, darkCount, axisDeg, notchDeg, deviceIndex, deviceType).deviceRotation != 180
  {
  }

  /** Without a counted notch the recommendation undoes the rotation, and
      with one it ignores the device's axis entirely. */
  lemma RecommendationSources(w: nat, h: nat, darkCount: nat, axisDeg: real, axisDeg': real, notchDeg: real,
                              deviceIndex: int, deviceType: string)
    ensures var r := OrientationOf(w, h, darkCount, axisDeg, notchDeg, deviceIndex, deviceType);
      !(deviceType == "smartphone" && darkCount > 100) ==> r.recommendedImageRotation == -r.deviceRotation
    ensures deviceType == "smartphone" && darkCount > 100 ==>
      OrientationOf(w, h, darkCount, axisDeg, notchDeg, deviceIndex, deviceType).recommendedImageRotation
      == OrientationOf(w, h, darkCount, axisDeg', notchDeg, deviceIndex, deviceType).recommendedImageRotation
  {
  }

  /** A notch straight to the right of the centre (atan2 angle 0) asks for
      a quarter turn back, as one just below it does. */
  lemma NotchOnTheRight(w: nat, h: nat, axisDeg: real, deviceIndex: int)
    ensures OrientationOf(w, h, 101, axisDeg, 0.0, deviceIndex, "smartphone").recommendedImageRotation == -90
    ensures OrientationOf(w, h, 101, axisDeg, -1.0, deviceIndex, "smartphone").recommendedImageRotation == -90
  {
  }
}
