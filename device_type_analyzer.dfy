/** The score-based device analyser: from a screen rectangle (in fractions
    of the frame) and optional visual features it infers a keyboard or a
    notch, scores laptop, smartphone and tablet, and picks the best; and
    the layout summary of several detected devices. */
module DeviceTypeAnalyzer {
  import opened Raster
  import opened Segmentation
  import opened JsNumber
  import opened DeviceTypeDetection
  import opened DeviceOrientation

  // ---------------------------------------------------------------------
  // Specification of the analysis

  /** Points for laptop, smartphone and tablet. */
  datatype Tally = Tally(laptop: int, smartphone: int, tablet: int)

  function Plus(a: Tally, b: Tally): Tally {
    Tally(a.laptop + b.laptop, a.smartphone + b.smartphone, a.tablet + b.tablet)
  }

  function Max3(a: int, b: int, c: int): (m: int)
    ensures m >= a && m >= b && m >= c
    ensures m == a || m == b || m == c
  {
    Max(Max(a, b), c)
  }

  /** The aspect ratio wPct / hPct, infinite or NaN for a zero height. */
  function Aspect(rect: ScreenRectPct): Num { Quotient(rect.wPct, rect.hPct) }

  function WidthPercent(rect: ScreenRectPct): real { rect.wPct * 100.0 }

  /** The screen's area in square percent of the frame. */
  function Area(rect: ScreenRectPct): real { (rect.wPct * 100.0) * (rect.hPct * 100.0) }

  /** The analyser's orientation: portrait below 0.95, landscape above
      1.05, square otherwise (a NaN ratio is square here). */
  function AnalyzerOrientation(aspect: Num): (o: Orientation)
    ensures o == Portrait <==> Lt(aspect, 0.95)
    ensures o == Landscape <==> Gt(aspect, 1.05)
  {
    if Lt(aspect, 0.95) then Portrait
    else if Gt(aspect, 1.05) then Landscape
    else Square
  }

  /** The analyser and `getOrientation` bucket the same way except on a
      NaN ratio, which the analyser calls square and `getOrientation`
      landscape. */
  lemma OrientationsAgreeUnlessNaN(width: real, height: real)
    ensures !(width == 0.0 && height == 0.0) ==> AnalyzerOrientation(Quotient(width, height)) == GetOrientation(width, height)
    ensures AnalyzerOrientation(Quotient(0.0, 0.0)) == Square && GetOrientation(0.0, 0.0) == Landscape
  {
    QuotientComparisons(width, height, 0.95);
    QuotientComparisons(width, height, 1.05);
    RatioNegations(width, height, 0.95);
    RatioNegations(width, height, 1.05);
  }

  /** A keyboard is assumed when one was seen, or when the screen is wider
      than 1.4 and covers more than 2500 square percent. */
  predicate InferredKeyboard(given: bool, aspect: Num, area: real) {
    given || (Gt(aspect, 1.4) && area > 2500.0)
  }

  /** A notch is assumed when one was seen, or when the screen is narrower
      than 0.6 and less than 35 % of the frame wide. */
  predicate InferredNotch(given: bool, aspect: Num, widthPercent: real) {
    given || (Lt(aspect, 0.6) && widthPercent < 35.0)
  }

  /** Points for the aspect ratio: at most one type gets any. */
  function AspectPoints(aspect: Num): Tally {
    if Gt(aspect, 1.5) then Tally(70, 0, 0)
    else if Gt(aspect, 1.35) then Tally(50, 0, 0)
    else if Ge(aspect, 0.7) && Le(aspect, 1.35) then Tally(0, 0, 40)
    else if Lt(aspect, 0.6) then Tally(0, 70, 0)
    else if Lt(aspect, 0.7) then Tally(0, 50, 0)
    else Tally(0, 0, 0)
  }

  /** Points for the area. */
  function SizePoints(area: real): Tally {
    if area > 3000.0 then Tally(30, 0, 0)
    else if area > 1500.0 then Tally(15, 0, 25)
    else if area > 800.0 then Tally(0, 10, 20)
    else Tally(0, 25, 0)
  }

  /** Points for the width in percent. */
  function WidthPoints(widthPercent: real): Tally {
    if widthPercent > 50.0 then Tally(20, 0, 0)
    else if widthPercent < 35.0 then Tally(0, 20, 0)
    else Tally(0, 0, 10)
  }

  /** The scores: a keyboard is a sure laptop, else a notch a sure
      smartphone, else aspect, size and width points add up. */
  function FeatureScores(keyboard: bool, notch: bool, aspect: Num, widthPercent: real, area: real): Tally {
    if keyboard then Tally(100, 0, 0)
    else if notch then Tally(0, 100, 0)
    else Plus(Plus(AspectPoints(aspect), SizePoints(area)), WidthPoints(widthPercent))
  }

  /** No score is negative, and some type always scores: the size points
      always go somewhere. */
  lemma ScoresPositive(keyboard: bool, notch: bool, aspect: Num, widthPercent: real, area: real)
    ensures var t := FeatureScores(keyboard, notch, aspect, widthPercent, area);
      t.laptop >= 0 && t.smartphone >= 0 && t.tablet >= 0 && Max3(t.laptop, t.smartphone, t.tablet) > 0
  {
    PointsInRange(aspect, widthPercent, area);
  }

  /** What each table can award. */
  lemma PointsInRange(aspect: Num, widthPercent: real, area: real)
    ensures var a := AspectPoints(aspect);
      0 <= a.laptop <= 70 && 0 <= a.smartphone <= 70 && 0 <= a.tablet <= 40
    ensures var s := SizePoints(area);
      0 <= s.laptop <= 30 && 0 <= s.smartphone <= 25 && 0 <= s.tablet <= 25 && s.laptop + s.smartphone + s.tablet > 0
    ensures var w := WidthPoints(widthPercent);
      0 <= w.laptop <= 20 && 0 <= w.smartphone <= 20 && 0 <= w.tablet <= 10
  {
  }

  lemma PlusZero(a: Tally)
    ensures Plus(Tally(0, 0, 0), a) == a
  {
  }

  /** The decision: unknown when every score is zero, otherwise the top
      score, ties going to laptop, then smartphone, then tablet. */
  function Decide(t: Tally): (d: DeviceType)
    ensures d == Unknown <==> Max3(t.laptop, t.smartphone, t.tablet) == 0
    ensures d == Laptop ==> t.laptop >= t.smartphone && t.laptop >= t.tablet
    ensures d == Smartphone ==> t.smartphone > t.laptop && t.smartphone >= t.tablet
    ensures d == Tablet ==> t.tablet > t.laptop && t.tablet > t.smartphone
  {
    var m := Max3(t.laptop, t.smartphone, t.tablet);
    if m == 0 then Unknown
    else if t.laptop == m then Laptop
    else if t.smartphone == m then Smartphone
    else Tablet
  }

  /** The summary scores the analyser reports beside the decision. */
  datatype Scores = Scores(aspectRatioScore: int, sizeScore: int, orientationScore: real, totalScore: int)

  function ReportedScores(t: Tally, o: Orientation, aspect: Num, area: real): (s: Scores)
    ensures s.aspectRatioScore in {0, 40, 50} && s.sizeScore in {0, 20, 25, 30}
    ensures s.totalScore == Max3(t.laptop, t.smartphone, t.tablet)
  {
    Scores(Max3(if t.laptop > 0 && Gt(aspect, 1.3) then 50 else 0,
                if t.smartphone > 0 && Lt(aspect, 0.7) then 50 else 0,
                if t.tablet > 0 then 40 else 0),
           Max3(if t.laptop > 0 && area > 3000.0 then 30 else 0,
                if t.smartphone > 0 && area < 800.0 then 25 else 0,
                if t.tablet > 0 then 20 else 0),
           match o
           case Landscape => t.laptop as real / 2.0
           case Portrait => t.smartphone as real / 2.0
           case Square => t.tablet as real / 2.0,
           Max3(t.laptop, t.smartphone, t.tablet))
  }

  datatype Analysis = Analysis(deviceType: DeviceType, confidence: real, aspectRatio: Num,
                               orientation: Orientation, widthPercent: real, heightPercent: real,
                               pixelArea: real, scores: Scores)

  /** The score of the chosen type, as a fraction of 100. */
  function ChosenShare(t: Tally, d: DeviceType): real {
    match d
    case Laptop => t.laptop as real / 100.0
    case Smartphone => t.smartphone as real / 100.0
    case Tablet => t.tablet as real / 100.0
    case Unknown => 0.0
  }

  /** `analyzeDeviceType`: no rectangle is an unknown device with nothing
      scored; otherwise the inferred features and the points decide, and
      the confidence is the winner's score over 100, capped at 1. */
  function Analyze(rect: Option<ScreenRectPct>, givenKeyboard: bool, givenNotch: bool): (a: Analysis)
    ensures rect.None? ==> (a.deviceType == Unknown && a.confidence == 0.0 && a.scores == Scores(0, 0, 0.0, 0)
                            && a.orientation == Portrait && a.pixelArea == 0.0)
    ensures 0.0 <= a.confidence <= 1.0
    ensures rect.Some? ==> a.orientation == AnalyzerOrientation(Aspect(rect.value)) && a.aspectRatio == Aspect(rect.value)
  {
    if rect.None? then Analysis(Unknown, 0.0, Finite(0.0), Portrait, 0.0, 0.0, 0.0, Scores(0, 0, 0.0, 0))
    else
      var r := rect.value;
      var (aspect, wp, area) := (Aspect(r), WidthPercent(r), Area(r));
      var (k, n) := (InferredKeyboard(givenKeyboard, aspect, area), InferredNotch(givenNotch, aspect, wp));
      var t := FeatureScores(k, n, aspect, wp, area);
      ScoresPositive(k, n, aspect, wp, area);
      var d := Decide(t);
      var o := AnalyzerOrientation(aspect);
      Analysis(d, MinReal(ChosenShare(t, d), 1.0), aspect, o, wp, r.hPct * 100.0, area, ReportedScores(t, o, aspect, area))
  }

  // ---------------------------------------------------------------------
  // The analysis as the source computes it

  /** The scoring stage: a keyboard's or a notch's sure points, or the
      aspect, size and width points, added to the three scores in turn. */
  method ScoreDevice(hasKeyboard: bool, hasNotch: bool, aspectRatio: Num, widthPercent: real, pixelArea: real)
    returns (t: Tally)
    ensures t == FeatureScores(hasKeyboard, hasNotch, aspectRatio, widthPercent, pixelArea)
  {
    t := Tally(0, 0, 0);
    if hasKeyboard {
      t := t.(laptop := t.laptop + 100);
    } else if hasNotch {
      t := t.(smartphone := t.smartphone + 100);
    } else {
      t := AddAspectPoints(t, aspectRatio);
      PlusZero(AspectPoints(aspectRatio));
    }
    if !hasKeyboard && !hasNotch {
      t := AddSizePoints(t, pixelArea);
      t := AddWidthPoints(t, widthPercent);
    }
  }

  method AddAspectPoints(t: Tally, aspectRatio: Num) returns (u: Tally)
    ensures u == Plus(t, AspectPoints(aspectRatio))
  {
    u := t;
    if Gt(aspectRatio, 1.5) {
      u := u.(laptop := u.laptop + 70);
    } else if Gt(aspectRatio, 1.35) {
      u := u.(laptop := u.laptop + 50);
    } else if Ge(aspectRatio, 0.7) && Le(aspectRatio, 1.35) {
      u := u.(tablet := u.tablet + 40);
    } else if Lt(aspectRatio, 0.6) {
      u := u.(smartphone := u.smartphone + 70);
    } else if Lt(aspectRatio, 0.7) {
      u := u.(smartphone := u.smartphone + 50);
    }
  }

  method AddSizePoints(t: Tally, pixelArea: real) returns (u: Tally)
    ensures u == Plus(t, SizePoints(pixelArea))
  {
    u := t;
    if pixelArea > 3000.0 {
      u := u.(laptop := u.laptop + 30);
    } else if pixelArea > 1500.0 {
      u := u.(tablet := u.tablet + 25);
      u := u.(laptop := u.laptop + 15);
    } else if pixelArea > 800.0 {
      u := u.(tablet := u.tablet + 20);
      u := u.(smartphone := u.smartphone + 10);
    } else {
      u := u.(smartphone := u.smartphone + 25);
    }
  }

  method AddWidthPoints(t: Tally, widthPercent: real) returns (u: Tally)
    ensures u == Plus(t, WidthPoints(widthPercent))
  {
    u := t;
    if widthPercent > 50.0 {
      u := u.(laptop := u.laptop + 20);
    } else if widthPercent < 35.0 {
      u := u.(smartphone := u.smartphone + 20);
    } else {
      u := u.(tablet := u.tablet + 10);
    }
  }

  method AnalyzeDeviceType(rect: Option<ScreenRectPct>, givenKeyboard: bool, givenNotch: bool) returns (a: Analysis)
    ensures a == Analyze(rect, givenKeyboard, givenNotch)
  {
    if rect.None? {
      return Analysis(Unknown, 0.0, Finite(0.0), Portrait, 0.0, 0.0, 0.0, Scores(0, 0, 0.0, 0));
    }
    var r := rect.value;
    var widthPercent := r.wPct * 100.0;
    var heightPercent := r.hPct * 100.0;
    var aspectRatio := Quotient(r.wPct, r.hPct);
    var pixelArea := widthPercent * heightPercent;

    var orientation;
    if Lt(aspectRatio, 0.95) {
      orientation := Portrait;
    } else if Gt(aspectRatio, 1.05) {
      orientation := Landscape;
    } else {
      orientation := Square;
    }

    var hasKeyboard, hasNotch := givenKeyboard, givenNotch;
    if !hasKeyboard && Gt(aspectRatio, 1.4) && pixelArea > 2500.0 {
      hasKeyboard := true;
    }
    if !hasNotch && Lt(aspectRatio, 0.6) && widthPercent < 35.0 {
      hasNotch := true;
    }

    assert aspectRatio == Aspect(r) && pixelArea == Area(r) && widthPercent == WidthPercent(r);
    assert hasKeyboard == InferredKeyboard(givenKeyboard, aspectRatio, pixelArea);
    assert hasNotch == InferredNotch(givenNotch, aspectRatio, widthPercent);
    var t := ScoreDevice(hasKeyboard, hasNotch, aspectRatio, widthPercent, pixelArea);
    var laptopScore, smartphoneScore, tabletScore := t.laptop, t.smartphone, t.tablet;
    var maxScore := Max(Max(laptopScore, smartphoneScore), tabletScore);
    var deviceType, confidence;
    if maxScore == 0 {
      deviceType, confidence := Unknown, 0.0;
    } else if laptopScore == maxScore {
      deviceType, confidence := Laptop, laptopScore as real / 100.0;
    } else if smartphoneScore == maxScore {
      deviceType, confidence := Smartphone, smartphoneScore as real / 100.0;
    } else {
      deviceType, confidence := Tablet, tabletScore as real / 100.0;
    }

    assert deviceType == Decide(t) && confidence == ChosenShare(t, deviceType);
    a := Analysis(deviceType, MinReal(confidence, 1.0), aspectRatio, orientation,
                  widthPercent, heightPercent, pixelArea, ReportedScores(t, orientation, aspectRatio, pixelArea));
  }

  // ---------------------------------------------------------------------
  // What the analysis decides

  /** A keyboard, seen or inferred, makes a laptop with full confidence. */
  lemma KeyboardMeansLaptop(rect: ScreenRectPct, givenKeyboard: bool, givenNotch: bool)
    requires InferredKeyboard(givenKeyboard, Aspect(rect), Area(rect))
    ensures var a := Analyze(Some(rect), givenKeyboard, givenNotch);
      a.deviceType == Laptop && a.confidence == 1.0 && a.scores.totalScore == 100
  {
  }

  /** Without a keyboard, a notch, seen or inferred, makes a smartphone
      with full confidence. */
  lemma NotchMeansSmartphone(rect: ScreenRectPct, givenKeyboard: bool, givenNotch: bool)
    requires !InferredKeyboard(givenKeyboard, Aspect(rect), Area(rect))
    requires InferredNotch(givenNotch, Aspect(rect), WidthPercent(rect))
    ensures var a := Analyze(Some(rect), givenKeyboard, givenNotch);
      a.deviceType == Smartphone && a.confidence == 1.0 && a.scores.totalScore == 100
  {
  }

  /** With a rectangle the analysis is never unknown. */
  lemma RectNeverUnknown(rect: ScreenRectPct, givenKeyboard: bool, givenNotch: bool)
    ensures Analyze(Some(rect), givenKeyboard, givenNotch).deviceType != Unknown
  {
    var (aspect, wp, area) := (Aspect(rect), WidthPercent(rect), Area(rect));
    ScoresPositive(InferredKeyboard(givenKeyboard, aspect, area), InferredNotch(givenNotch, aspect, wp), aspect, wp, area);
  }

  /** Without a keyboard or notch the points stay low: a laptop gets at
      most 105 (a wide screen large enough for the full size points would
      have been given a keyboard), a smartphone at most 95 (a tall narrow
      one would have been given a notch), a tablet at most 75. */
  lemma FeaturelessScoresBounded(aspect: Num, widthPercent: real, area: real)
    requires !InferredKeyboard(false, aspect, area) && !InferredNotch(false, aspect, widthPercent)
    ensures var t := FeatureScores(false, false, aspect, widthPercent, area);
      t.laptop <= 105 && t.smartphone <= 95 && t.tablet <= 75
  {
    PointsInRange(aspect, widthPercent, area);
    var (a, s, w) := (AspectPoints(aspect), SizePoints(area), WidthPoints(widthPercent));
    assert a.laptop == 0 || a.laptop == 50 || (a.laptop == 70 && s.laptop <= 15) by {
      if Gt(aspect, 1.5) {
        assert Gt(aspect, 1.4);
      }
    }
    assert a.smartphone == 0 || (a.smartphone == 50 && Lt(aspect, 0.7)) || (a.smartphone == 70 && w.smartphone == 0);
  }

  /** The analysis in terms of the scores of the inferred features. */
  lemma AnalysisFollowsScores(rect: ScreenRectPct, givenKeyboard: bool, givenNotch: bool)
    ensures var a := Analyze(Some(rect), givenKeyboard, givenNotch);
      var (aspect, wp, area) := (Aspect(rect), WidthPercent(rect), Area(rect));
      var t := FeatureScores(InferredKeyboard(givenKeyboard, aspect, area), InferredNotch(givenNotch, aspect, wp), aspect, wp, area);
      a.deviceType == Decide(t) && a.confidence == MinReal(ChosenShare(t, Decide(t)), 1.0)
      && a.scores.totalScore == Max3(t.laptop, t.smartphone, t.tablet)
  {
  }

  /** The cap on the confidence is reached without any feature: a screen
      wider than 1.5, between 1500 and 2500 square percent and more than
      half the frame wide scores 105 for a laptop (70 + 15 + 20) and is
      reported with confidence 1. */
  lemma ConfidenceCapReached(rect: ScreenRectPct)
    requires Gt(Aspect(rect), 1.5) && 1500.0 < Area(rect) <= 2500.0 && WidthPercent(rect) > 50.0
    ensures var a := Analyze(Some(rect), false, false);
      a.deviceType == Laptop && a.scores.totalScore == 105 && a.confidence == 1.0
  {
    AnalysisFollowsScores(rect, false, false);
    assert FeatureScores(false, false, Aspect(rect), WidthPercent(rect), Area(rect)) == Tally(105, 0, 25);
  }

  /** Such a screen exists: 0.6 of the frame wide and 0.35 high. */
  lemma CapScreenExists(rect: ScreenRectPct)
    requires rect.wPct == 0.6 && rect.hPct == 0.35
    ensures Gt(Aspect(rect), 1.5) && 1500.0 < Area(rect) <= 2500.0 && WidthPercent(rect) > 50.0
  {
    assert Aspect(rect) == Finite(0.6 / 0.35);
  }

  // ---------------------------------------------------------------------
  // Layout of several devices

  datatype LayoutLine = NoDevices | SingleDevice | DeviceCount(n: nat)
                      | Vertical | Horizontal | DiagonalOrGrid

  /** A region's coordinate as the source reads it: `rect?.xPct || 0`, so a
      region without a rectangle sits at 0. */
  function CoordX(rect: Option<ScreenRectPct>): real { if rect.Some? then rect.value.xPct else 0.0 }

  function CoordY(rect: Option<ScreenRectPct>): real { if rect.Some? then rect.value.yPct else 0.0 }

  function SeqMin(s: seq<real>): (m: real)
    requires |s| > 0
    ensures forall i :: 0 <= i < |s| ==> m <= s[i]
    ensures m in s
  {
    if |s| == 1 then s[0]
    else var m := SeqMin(s[..|s| - 1]); if s[|s| - 1] < m then s[|s| - 1] else m
  }

  function SeqMax(s: seq<real>): (m: real)
    requires |s| > 0
    ensures forall i :: 0 <= i < |s| ==> s[i] <= m
    ensures m in s
  {
    if |s| == 1 then s[0]
    else var m := SeqMax(s[..|s| - 1]); if s[|s| - 1] > m then s[|s| - 1] else m
  }

  /** The distance between the extreme coordinates, which is what the
      difference of the last and first entries of a sorted copy is. */
  function Spread(s: seq<real>): (d: real)
    requires |s| > 0
    ensures d >= 0.0
  {
    SeqMax(s) - SeqMin(s)
  }

  function Xs(regions: seq<Option<ScreenRectPct>>): (xs: seq<real>)
    ensures |xs| == |regions| && forall i :: 0 <= i < |xs| ==> xs[i] == CoordX(regions[i])
  {
    seq(|regions|, i requires 0 <= i < |regions| => CoordX(regions[i]))
  }

  function Ys(regions: seq<Option<ScreenRectPct>>): (ys: seq<real>)
    ensures |ys| == |regions| && forall i :: 0 <= i < |ys| ==> ys[i] == CoordY(regions[i])
  {
    seq(|regions|, i requires 0 <= i < |regions| => CoordY(regions[i]))
  }

  /** Vertical when the vertical spread is more than 1.5 times the
      horizontal one, horizontal the other way round, else diagonal or grid. */
  function Arrangement(verticalSpread: real, horizontalSpread: real): LayoutLine {
    if verticalSpread > horizontalSpread * 1.5 then Vertical
    else if horizontalSpread > verticalSpread * 1.5 then Horizontal
    else DiagonalOrGrid
  }

  /** `analyzeDeviceLayout`: one line for no device or one device; for more,
      the count and the arrangement. */
  function Layout(regions: seq<Option<ScreenRectPct>>): (lines: seq<LayoutLine>)
    ensures |regions| == 0 ==> lines == [NoDevices]
    ensures |regions| == 1 ==> lines == [SingleDevice]
    ensures |regions| >= 2 ==> |lines| == 2 && lines[0] == DeviceCount(|regions|)
                               && lines[1] in {Vertical, Horizontal, DiagonalOrGrid}
  {
    if |regions| == 0 then [NoDevices]
    else if |regions| == 1 then [SingleDevice]
    else [DeviceCount(|regions|), Arrangement(Spread(Ys(regions)), Spread(Xs(regions)))]
  }

  /** The extremes of a sorted sequence are its ends, so the spread is the
      last entry minus the first, as the source takes it. */
  lemma SortedSpread(s: seq<real>)
    requires |s| > 0
    requires forall i, j :: 0 <= i <= j < |s| ==> s[i] <= s[j]
    ensures SeqMin(s) == s[0] && SeqMax(s) == s[|s| - 1]
    ensures Spread(s) == s[|s| - 1] - s[0]
  {
  }

  /** The extremes depend only on which values occur, not on their order
      or how often. */
  lemma ExtremesSameValues(a: seq<real>, b: seq<real>)
    requires |a| > 0 && |b| > 0
    requires forall v :: v in a <==> v in b
    ensures SeqMin(a) == SeqMin(b) && SeqMax(a) == SeqMax(b)
  {
    assert SeqMin(a) in b && SeqMin(b) in a;
    assert SeqMax(a) in b && SeqMax(b) in a;
  }

  /** A coordinate of some region is a coordinate of some region of any
      reordering. */
  lemma CoordsFollowRegions(regions: seq<Option<ScreenRectPct>>, other: seq<Option<ScreenRectPct>>, v: real)
    requires multiset(regions) == multiset(other)
    ensures v in Xs(regions) ==> v in Xs(other)
    ensures v in Ys(regions) ==> v in Ys(other)
  {
    if v in Xs(regions) {
      var i :| 0 <= i < |regions| && Xs(regions)[i] == v;
      assert regions[i] in multiset(other);
      var j :| 0 <= j < |other| && other[j] == regions[i];
      assert Xs(other)[j] == v;
    }
    if v in Ys(regions) {
      var i :| 0 <= i < |regions| && Ys(regions)[i] == v;
      assert regions[i] in multiset(other);
      var j :| 0 <= j < |other| && other[j] == regions[i];
      assert Ys(other)[j] == v;
    }
  }

  /** The layout does not depend on the order of the regions, as the
      source sorts copies and leaves its input as it was. */
  lemma LayoutOrderFree(regions: seq<Option<ScreenRectPct>>, other: seq<Option<ScreenRectPct>>)
    requires multiset(regions) == multiset(other)
    ensures Layout(regions) == Layout(other)
  {
    assert |regions| == |multiset(regions)| == |multiset(other)| == |other|;
    if |regions| >= 2 {
      forall v: real
        ensures (v in Xs(regions) <==> v in Xs(other)) && (v in Ys(regions) <==> v in Ys(other))
      {
        CoordsFollowRegions(regions, other, v);
        CoordsFollowRegions(other, regions, v);
      }
      ExtremesSameValues(Xs(regions), Xs(other));
      ExtremesSameValues(Ys(regions), Ys(other));
    }
  }

  /** Devices all at the same spot are reported as a diagonal or grid. */
  lemma StackedInPlaceIsGrid(rect: ScreenRectPct, n: nat)
    requires n >= 2
    ensures Layout(seq(n, _ => Some(rect))) == [DeviceCount(n), DiagonalOrGrid]
  {
    var regions := seq(n, _ => Some(rect));
    assert Spread(Xs(regions)) == 0.0 by { AllEqualSpread(Xs(regions), rect.xPct); }
    assert Spread(Ys(regions)) == 0.0 by { AllEqualSpread(Ys(regions), rect.yPct); }
  }

  lemma AllEqualSpread(s: seq<real>, v: real)
    requires |s| > 0 && forall i :: 0 <= i < |s| ==> s[i] == v
    ensures Spread(s) == 0.0
  {
  }

  /** The layout as the source computes it: the extreme coordinates are
      found in one pass instead of by sorting two copies. */
  method AnalyzeDeviceLayout(regions: seq<Option<ScreenRectPct>>) returns (analysis: seq<LayoutLine>)
    ensures analysis == Layout(regions)
  {
    analysis := [];
    if |regions| == 0 {
      analysis := analysis + [NoDevices];
      return;
    }
    if |regions| == 1 {
      analysis := analysis + [SingleDevice];
      return;
    }
    analysis := analysis + [DeviceCount(|regions|)];
    var minX, maxX := Extremes(Xs(regions));
    var minY, maxY := Extremes(Ys(regions));
    analysis := analysis + [Arrangement(maxY - minY, maxX - minX)];
  }

  /** The smallest and largest entry, found in one pass. */
  method Extremes(s: seq<real>) returns (lo: real, hi: real)
    requires |s| > 0
    ensures lo == SeqMin(s) && hi == SeqMax(s)
  {
    lo, hi := s[0], s[0];
    for i := 1 to |s|
      invariant lo == SeqMin(s[..i]) && hi == SeqMax(s[..i])
    {
      ExtremesStep(s, i);
      if s[i] < lo { lo := s[i]; }
      if s[i] > hi { hi := s[i]; }
    }
    assert s[..|s|] == s;
  }

  /** Extending a prefix by one entry updates the extremes by that entry. */
  lemma ExtremesStep(s: seq<real>, i: nat)
    requires 0 < i < |s|
    ensures SeqMin(s[..i + 1]) == if s[i] < SeqMin(s[..i]) then s[i] else SeqMin(s[..i])
    ensures SeqMax(s[..i + 1]) == if s[i] > SeqMax(s[..i]) then s[i] else SeqMax(s[..i])
  {
    var p := s[..i + 1];
    assert p[..|p| - 1] == s[..i] && p[|p| - 1] == s[i];
  }
}
