/** Deciding what device a detected screen belongs to from its visual
    features, how sure that decision is, which way the device points and how
    far an uploaded picture must turn to match it. */
module DeviceTypeDetection {
  import opened Raster
  import opened Segmentation
  import opened JsNumber
  import opened DeviceFeatures

  datatype DeviceType = Laptop | Smartphone | Tablet | Unknown

  // ---------------------------------------------------------------------
  // The decision

  /** Width / height below 0.56 or above 1.78: the elongation of a phone. */
  predicate Elongated(width: real, height: real) {
    RatioBelow(width, height, 0.56) || RatioAbove(width, height, 1.78)
  }

  /** `detectDeviceType`: a keyboard means a laptop; otherwise a cutout
      means a smartphone if the screen is elongated and a laptop if not;
      with neither, a tablet. The metal side plays no part. */
  function DetectDeviceType(width: real, height: real, hasBlackCutout: bool, hasKeyboard: bool, hasMetalSide: bool): (t: DeviceType)
    ensures t != Unknown
    ensures hasKeyboard ==> t == Laptop
    ensures t == Smartphone <==> !hasKeyboard && hasBlackCutout && Elongated(width, height)
    ensures t == Tablet <==> !hasKeyboard && !hasBlackCutout
  {
    if hasKeyboard then Laptop
    else if hasBlackCutout then (if Elongated(width, height) then Smartphone else Laptop)
    else Tablet
  }

  /** The metal side never changes the decision. */
  lemma MetalSideIgnored(width: real, height: real, hasBlackCutout: bool, hasKeyboard: bool)
    ensures DetectDeviceType(width, height, hasBlackCutout, hasKeyboard, true)
         == DetectDeviceType(width, height, hasBlackCutout, hasKeyboard, false)
  {
  }

  // ---------------------------------------------------------------------
  // Confidence

  /** The aspect-ratio range each known device type is expected in. */
  function AspectRange(t: DeviceType): (r: (real, real))
    requires t != Unknown
    ensures 0.0 < r.0 < r.1
  {
    match t
    case Laptop => (1.3, 2.0)
    case Smartphone => (0.4, 0.7)
    case Tablet => (0.7, 1.3)
  }

  /** Confidence before the clamp: 50, plus up to 30 the closer the aspect
      ratio is to the middle of the type's range, plus 30 for a laptop with
      a keyboard, 30 for a smartphone with a cutout, 25 for a tablet with a
      metal side and neither of the others. */
  function RawConfidence(t: DeviceType, aspect: real, hasNotch: bool, hasKeyboard: bool, hasMetalSide: bool): real
    requires t != Unknown
  {
    var (lo, hi) := AspectRange(t);
    var centre := (lo + hi) / 2.0;
    var deviation := (if aspect >= centre then aspect - centre else centre - aspect) / (hi - lo);
    50.0 + (1.0 - deviation) * 30.0
    + (if t == Laptop && hasKeyboard then 30.0 else 0.0)
    + (if t == Smartphone && hasNotch then 30.0 else 0.0)
    + (if t == Tablet && hasMetalSide && !hasKeyboard && !hasNotch then 25.0 else 0.0)
  }

  function Clamp(c: real): (r: real)
    ensures 0.0 <= r <= 100.0
    ensures 0.0 <= c <= 100.0 ==> r == c
  {
    if c > 100.0 then 100.0 else if c < 0.0 then 0.0 else c
  }

  /** The confidence `detectDeviceTypeFromRegion` reports for type t of a
      width × height screen, None standing for NaN. A zero height makes the
      aspect infinite, which drives the confidence to 0, or NaN when the
      width is zero too; an unknown type keeps the base 50. */
  function Confidence(t: DeviceType, width: real, height: real, hasNotch: bool, hasKeyboard: bool, hasMetalSide: bool): (c: Option<real>)
    ensures c.None? <==> t != Unknown && width == 0.0 && height == 0.0
    ensures c.Some? ==> 0.0 <= c.value <= 100.0
    ensures t == Unknown ==> c == Some(50.0)
  {
    if t == Unknown then Some(50.0)
    else if height == 0.0 then (if width == 0.0 then None else Some(0.0))
    else Some(Clamp(RawConfidence(t, width / height, hasNotch, hasKeyboard, hasMetalSide)))
  }

  /** Each boost rewards only its own type's feature: a laptop's confidence
      does not depend on the cutout or the metal side, a smartphone's not on
      the keyboard or the metal side, and a tablet's metal side counts only
      without a keyboard or a cutout. */
  lemma BoostsMatchType(width: real, height: real, n: bool, k: bool, m: bool, n': bool, k': bool, m': bool)
    ensures Confidence(Laptop, width, height, n, k, m) == Confidence(Laptop, width, height, n', k, m')
    ensures Confidence(Smartphone, width, height, n, k, m) == Confidence(Smartphone, width, height, n, k', m')
    ensures (k || n) ==> Confidence(Tablet, width, height, n, k, m) == Confidence(Tablet, width, height, n, k, m')
  {
  }

  /** Each type's own feature never lowers its confidence: a laptop's
      keyboard, a smartphone's cutout, a tablet's metal side. */
  lemma FeatureNeverLowers(width: real, height: real, n: bool, k: bool, m: bool)
    requires height != 0.0
    ensures Confidence(Laptop, width, height, n, true, m).value >= Confidence(Laptop, width, height, n, false, m).value
    ensures Confidence(Smartphone, width, height, true, k, m).value >= Confidence(Smartphone, width, height, false, k, m).value
    ensures Confidence(Tablet, width, height, n, k, true).value >= Confidence(Tablet, width, height, n, k, false).value
  {
    var a := width / height;
    ClampMono(RawConfidence(Laptop, a, n, false, m), RawConfidence(Laptop, a, n, true, m));
    ClampMono(RawConfidence(Smartphone, a, false, k, m), RawConfidence(Smartphone, a, true, k, m));
    ClampMono(RawConfidence(Tablet, a, n, k, false), RawConfidence(Tablet, a, n, k, true));
  }

  lemma ClampMono(a: real, b: real)
    requires a <= b
    ensures Clamp(a) <= Clamp(b)
  {
  }

  /** A screen exactly at its range's centre, without features, scores 80. */
  lemma CentredScreenScores80(t: DeviceType)
    requires t != Unknown
    ensures var (lo, hi) := AspectRange(t);
      Confidence(t, (lo + hi) / 2.0, 1.0, false, false, false) == Some(80.0)
  {
  }

  // ---------------------------------------------------------------------
  // Detection from a region

  datatype RegionDetection = RegionDetection(deviceType: DeviceType, confidence: Option<real>,
                                             hasNotch: bool, hasKeyboard: bool, hasMetalSide: bool)

  /** `detectDeviceTypeFromRegion`: the cutout and metal side are looked
      for in the mask, the keyboard below the screen in the whole frame or,
      without the frame, in the mask's lower bands; the screen's size is the
      rectangle scaled to the container. */
  method DetectDeviceTypeFromRegion(rect: ScreenRectPct, containerW: real, containerH: real,
                                    mask: Option<Image>, frame: Option<Image>) returns (r: RegionDetection)
    ensures r.hasNotch == (mask.Some? && HasBlackCutout(mask.value))
    ensures r.hasMetalSide == (mask.Some? && HasMetalSide(mask.value))
    ensures r.hasKeyboard == if frame.Some? then KeyboardBelowScreen(frame.value, rect)
                             else mask.Some? && KeyboardInMask(mask.value)
    ensures var w, h := rect.wPct * containerW, rect.hPct * containerH;
      && r.deviceType == DetectDeviceType(w, h, r.hasNotch, r.hasKeyboard, r.hasMetalSide)
      && r.confidence == Confidence(r.deviceType, w, h, r.hasNotch, r.hasKeyboard, r.hasMetalSide)
  {
    var actualWidth := rect.wPct * containerW;
    var actualHeight := rect.hPct * containerH;
    var hasNotch, hasKeyboard, hasMetalSide := false, false, false;
    if mask.Some? {
      hasNotch := DetectBlackCutout(mask.value);
      hasMetalSide := DetectMetalSide(mask.value);
    }
    if frame.Some? {
      hasKeyboard := DetectKeyboardFromFrame(frame.value, rect);
    } else if mask.Some? {
      hasKeyboard := DetectKeyboard(mask.value);
    }
    var t := DetectDeviceType(actualWidth, actualHeight, hasNotch, hasKeyboard, hasMetalSide);
    var confidence := Confidence(t, actualWidth, actualHeight, hasNotch, hasKeyboard, hasMetalSide);
    r := RegionDetection(t, confidence, hasNotch, hasKeyboard, hasMetalSide);
  }

  // ---------------------------------------------------------------------
  // Direction and rotation

  datatype Direction = Up | Right | DiagonalUp | DiagonalRight

  /** The diagonal case: the notch's angle from the centre, in degrees,
      bucketed into quarter turns of 45 degrees. */
  function AngleBucket(angle: real): Direction {
    if -22.5 <= angle < 22.5 then Up
    else if 22.5 <= angle < 67.5 then DiagonalUp
    else if 67.5 <= angle < 112.5 then Right
    else DiagonalRight
  }

  /** `detectDeviceVerticalDirection`, given the notch centroid found in
      the mask (if any) and the function that measures its angle: laptops,
      tablets and unknown devices point up; a smartphone by its notch (top
      fifth up, side fifths right, otherwise by angle) or, without one, by
      its aspect ratio width / height (portrait up, else right). */
  function VerticalDirection(t: DeviceType, aspectW: real, aspectH: real, notch: Option<(real, real)>,
                             angleOf: (real, real) -> real): (d: Direction)
    ensures t != Smartphone ==> d == Up
    ensures t == Smartphone && notch.None? ==> (d == Up <==> RatioBelow(aspectW, aspectH, 1.0)) && (d == Up || d == Right)
  {
    match t
    case Smartphone =>
      if notch.Some? then
        var (x, y) := notch.value;
        if y < 0.2 then Up
        else if x < 0.2 then Right
        else if x > 0.8 then Right
        else AngleBucket(angleOf(x, y))
      else if RatioBelow(aspectW, aspectH, 1.0) then Up else Right
    case _ => Up
  }

  /** The direction as the source computes it: the notch is looked for only
      for a smartphone with a mask. */
  method DetectDeviceVerticalDirection(t: DeviceType, aspectW: real, aspectH: real, mask: Option<Image>,
                                       angleOf: (real, real) -> real) returns (d: Direction)
    ensures d == VerticalDirection(t, aspectW, aspectH, if t == Smartphone && mask.Some? then NotchCentroid(mask.value) else None, angleOf)
  {
    if t != Smartphone {
      return Up;
    }
    var notch: Option<(real, real)> := None;
    if mask.Some? {
      notch := DetectNotchPosition(mask.value);
    }
    d := VerticalDirection(t, aspectW, aspectH, notch, angleOf);
  }

  /** For a smartphone mask at least 20 pixels on each side, a notch found
      in the central window is never in the top or side fifth, so the
      direction is always the angle's bucket. */
  lemma NotchDirectionIsAngle(mask: Image, aspectW: real, aspectH: real, angleOf: (real, real) -> real)
    requires mask.width >= 20 && mask.height >= 20 && NotchCentroid(mask).Some?
    ensures var (x, y) := NotchCentroid(mask).value;
      VerticalDirection(Smartphone, aspectW, aspectH, NotchCentroid(mask), angleOf) == AngleBucket(angleOf(x, y))
  {
    NotchAwayFromEdges(mask);
  }

  /** The rotation for direction d, a device of aspect ratio devW / devH and
      an uploaded image of natural size natural (if known): pointing up, a
      portrait device turns a landscape image (above 1.2) by 90 and a
      landscape device a portrait image (below 0.8) by 90; pointing right,
      a portrait image below 0.8 turns by 90; diagonal, an image below 0.9
      turns by 45; otherwise nothing turns. */
  function Rotation(d: Direction, devW: real, devH: real, natural: Option<(real, real)>): (deg: int)
    ensures deg == 0 || deg == 45 || deg == 90
    ensures natural.None? ==> deg == 0
    ensures deg == 45 <==> (d == DiagonalUp || d == DiagonalRight) && natural.Some? && RatioBelow(natural.value.0, natural.value.1, 0.9)
  {
    match d
    case Up =>
      if RatioBelow(devW, devH, 1.0) then
        (if natural.Some? && RatioAbove(natural.value.0, natural.value.1, 1.2) then 90 else 0)
      else
        (if natural.Some? && RatioBelow(natural.value.0, natural.value.1, 0.8) then 90 else 0)
    case Right => if natural.Some? && RatioBelow(natural.value.0, natural.value.1, 0.8) then 90 else 0
    case _ => if natural.Some? && RatioBelow(natural.value.0, natural.value.1, 0.9) then 45 else 0
  }

  /** `determineDeviceOrientation`: the device's aspect ratio is the
      rectangle's (1 without one), the direction is detected, and the
      rotation follows from it and the image's size. */
  method DetermineDeviceOrientation(t: DeviceType, mask: Option<Image>, rect: Option<ScreenRectPct>,
                                    natural: Option<(real, real)>, angleOf: (real, real) -> real) returns (deg: int)
    ensures var (w, h) := if rect.Some? then (rect.value.wPct, rect.value.hPct) else (1.0, 1.0);
      deg == Rotation(VerticalDirection(t, w, h, if t == Smartphone && mask.Some? then NotchCentroid(mask.value) else None, angleOf), w, h, natural)
    ensures deg == 0 || deg == 45 || deg == 90
    ensures natural.None? ==> deg == 0
  {
    var devW, devH := 1.0, 1.0;
    if rect.Some? {
      devW, devH := rect.value.wPct, rect.value.hPct;
    }
    var d := DetectDeviceVerticalDirection(t, devW, devH, mask, angleOf);
    deg := Rotation(d, devW, devH, natural);
  }

  /** Laptops and tablets point up, so their pictures never turn by 45. */
  lemma UprightDevicesNeverTilt(t: DeviceType, w: real, h: real, notch: Option<(real, real)>,
                                angleOf: (real, real) -> real, natural: Option<(real, real)>)
    requires t != Smartphone
    ensures Rotation(VerticalDirection(t, w, h, notch, angleOf), w, h, natural) in {0, 90}
  {
  }

  // ---------------------------------------------------------------------
  // Tables

  /** `getOptimalBleedForDevice`, in pixels. */
  function OptimalBleed(t: DeviceType): nat {
    match t
    case Laptop => 12
    case Smartphone => 5
    case Tablet => 8
    case Unknown => 5
  }

  /** The bleed grows with the device: phone and unknown the least, then
      tablet, then laptop. */
  lemma BleedOrder()
    ensures OptimalBleed(Smartphone) == OptimalBleed(Unknown) < OptimalBleed(Tablet) < OptimalBleed(Laptop)
    ensures forall t :: 5 <= OptimalBleed(t) <= 12
  {
  }

  /** `getDeviceDisplayName`: the Japanese name shown for each type. */
  function DisplayName(t: DeviceType): string {
    match t
    case Laptop => "ノートPC"
    case Smartphone => "スマートフォン"
    case Tablet => "タブレット"
    case Unknown => "不明なデバイス"
  }

  /** No two types share a name. */
  lemma DisplayNamesDistinct(t: DeviceType, u: DeviceType)
    requires t != u
    ensures DisplayName(t) != DisplayName(u)
  {
    var names := [DisplayName(Laptop), DisplayName(Smartphone), DisplayName(Tablet), DisplayName(Unknown)];
    assert names[0][0] == 'ノ' && names[1][0] == 'ス' && names[2][0] == 'タ' && names[3][0] == '不';
  }
}
