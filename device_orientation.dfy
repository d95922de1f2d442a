/** Orientation of a screen region or an image from its aspect ratio, the
    angle a region is drawn at, whether an image's orientation matches its
    region, the corner radius of a device screen, and the debug record that
    gathers them. */
module DeviceOrientation {
  import opened Raster
  import opened Segmentation
  import opened JsNumber

  datatype Orientation = Portrait | Landscape | Square

  /** `getOrientation`: square when width / height lies in [0.95, 1.05],
      portrait below, landscape otherwise (so a NaN ratio, 0 / 0, falls to
      landscape). */
  function GetOrientation(width: real, height: real): (o: Orientation)
    ensures o == Square <==> RatioAtLeast(width, height, 0.95) && RatioAtMost(width, height, 1.05)
    ensures o == Portrait <==> RatioBelow(width, height, 0.95)
    ensures o == Landscape <==> RatioAbove(width, height, 1.05) || (width == 0.0 && height == 0.0)
  {
    if RatioAtLeast(width, height, 0.95) && RatioAtMost(width, height, 1.05) then Square
    else if RatioBelow(width, height, 0.95) then Portrait
    else Landscape
  }

  /** For positive sides the thresholds are cross-multiplications. */
  lemma PositiveOrientation(width: real, height: real)
    requires width > 0.0 && height > 0.0
    ensures GetOrientation(width, height) == Portrait <==> width < 0.95 * height
    ensures GetOrientation(width, height) == Landscape <==> width > 1.05 * height
    ensures GetOrientation(width, height) == Square <==> 0.95 * height <= width <= 1.05 * height
  {
    RatioCross(width, height, 0.95);
    RatioCross(width, height, 1.05);
  }

  /** Turning a portrait shape by a quarter turn makes it landscape ... */
  lemma PortraitTurnsLandscape(width: real, height: real)
    requires width > 0.0 && height > 0.0
    requires GetOrientation(width, height) == Portrait
    ensures GetOrientation(height, width) == Landscape
  {
    PositiveOrientation(width, height);
    PositiveOrientation(height, width);
  }

  /** ... but the band is not symmetric: a shape just past 1.05 turns into
      a square one, not a portrait one. */
  lemma LandscapeMayTurnSquare()
    ensures GetOrientation(1.051, 1.0) == Landscape
    ensures GetOrientation(1.0, 1.051) == Square
  {
    PositiveOrientation(1.051, 1.0);
    PositiveOrientation(1.0, 1.051);
  }

  /** `getDeviceAngle`: 90 degrees for a landscape rectangle, 0 for a
      portrait or square one. */
  function GetDeviceAngle(rect: ScreenRectPct): (a: int)
    ensures a == 0 || a == 90
    ensures a == 90 <==> RatioAbove(rect.wPct, rect.hPct, 1.05) || (rect.wPct == 0.0 && rect.hPct == 0.0)
  {
    match GetOrientation(rect.wPct, rect.hPct)
    case Portrait => 0
    case Landscape => 90
    case Square => 0
  }

  /** `isOrientationMatched`: a square on either side always matches;
      otherwise the orientations must agree, so the only mismatch is one
      portrait and one landscape. */
  function IsOrientationMatched(imageW: real, imageH: real, regionW: real, regionH: real): (m: bool)
    ensures !m <==> var (io, ro) := (GetOrientation(imageW, imageH), GetOrientation(regionW, regionH));
      (io == Portrait && ro == Landscape) || (io == Landscape && ro == Portrait)
  {
    var io := GetOrientation(imageW, imageH);
    var ro := GetOrientation(regionW, regionH);
    if io == Square || ro == Square then true else io == ro
  }

  /** Matching does not depend on which side is the image. */
  lemma MatchSymmetric(aW: real, aH: real, bW: real, bH: real)
    ensures IsOrientationMatched(aW, aH, bW, bH) == IsOrientationMatched(bW, bH, aW, aH)
  {
  }

  /** Some window of five characters of s is "phone" (case-sensitive, as
      `String.prototype.includes` is). */
  predicate ContainsPhone(s: string) {
    exists i :: 0 <= i < |s| && PhoneAt(s, i)
  }

  predicate PhoneAt(s: string, i: nat) {
    i + 5 <= |s| && s[i..i + 5] == "phone"
  }

  /** The share of the shorter side used as corner radius for a category:
      8 % for "smartphone" or any category containing "phone", 5 % for
      "tablet", 2 % for "laptop" or "desktop", 3 % otherwise or without one. */
  function RadiusFactor(category: Option<string>): (f: real)
    ensures f == 0.08 || f == 0.05 || f == 0.03 || f == 0.02
    ensures category == Some("smartphone") ==> f == 0.08
    ensures category.Some? && ContainsPhone(category.value) ==> f == 0.08
    ensures category.None? ==> f == 0.03
  {
    if category == Some("smartphone") || (category.Some? && ContainsPhone(category.value)) then 0.08
    else if category == Some("tablet") then 0.05
    else if category == Some("laptop") || category == Some("desktop") then 0.02
    else 0.03
  }

  function MinReal(a: real, b: real): real { if a <= b then a else b }

  /** `getCornerRadius`: the category's share of the shorter side. */
  function CornerRadius(width: real, height: real, category: Option<string>): (r: real)
    ensures width >= 0.0 && height >= 0.0 ==> 0.0 <= r <= 0.08 * MinReal(width, height)
    ensures width >= 0.0 && height >= 0.0 ==> r >= 0.02 * MinReal(width, height)
  {
    MinReal(width, height) * RadiusFactor(category)
  }

  /** Phones are the roundest, then tablets, then unnamed categories, and
      laptops and desktops the squarest. */
  lemma RadiusOrder(width: real, height: real)
    requires width > 0.0 && height > 0.0
    ensures CornerRadius(width, height, Some("laptop")) == CornerRadius(width, height, Some("desktop"))
    ensures CornerRadius(width, height, Some("desktop")) < CornerRadius(width, height, None)
    ensures CornerRadius(width, height, None) < CornerRadius(width, height, Some("tablet"))
    ensures CornerRadius(width, height, Some("tablet")) < CornerRadius(width, height, Some("smartphone"))
  {
    NoPhoneIn("laptop");
    NoPhoneIn("desktop");
    NoPhoneIn("tablet");
  }

  /** A word whose second letter is never 'h' after a 'p' has no "phone". */
  lemma NoPhoneIn(s: string)
    requires forall i :: 0 <= i < |s| - 1 ==> s[i] != 'p' || s[i + 1] != 'h'
    ensures !ContainsPhone(s)
  {
    forall i: nat | i < |s| ensures !PhoneAt(s, i) {
      if i + 5 <= |s| {
        assert s[i..i + 5][0] == s[i] && s[i..i + 5][1] == s[i + 1];
      }
    }
  }

  /** `Math.round`: the nearest integer, halves rounded up. */
  function Round(x: real): (n: int)
    ensures x - 0.5 < n as real <= x + 0.5
  {
    (x + 0.5).Floor
  }

  datatype FitMode = Contain | Cover

  /** The image half of the debug record. */
  datatype ImageDebug = ImageDebug(orientation: Orientation, width: real, height: real,
                                   orientationMatched: bool, fittingCorrectly: bool, fitMode: Option<FitMode>)

  datatype DeviceDebugInfo = DeviceDebugInfo(frameName: string, deviceIndex: int, deviceAngle: int,
                                             regionWidth: int, regionHeight: int, regionOrientation: Orientation,
                                             cornerRadius: int, image: Option<ImageDebug>)

  /** `generateDeviceDebugInfo`: the region is the rectangle scaled to the
      container; its size and corner radius are rounded; the image fields
      are filled in only when the image's natural size is known. */
  function GenerateDeviceDebugInfo(frameName: string, deviceIndex: int, rect: ScreenRectPct,
                                   containerW: real, containerH: real, natural: Option<(real, real)>,
                                   category: Option<string>, fitMode: Option<FitMode>): (info: DeviceDebugInfo)
    ensures var (rw, rh) := (rect.wPct * containerW, rect.hPct * containerH);
      && rw - 0.5 < info.regionWidth as real <= rw + 0.5
      && rh - 0.5 < info.regionHeight as real <= rh + 0.5
      && CornerRadius(rw, rh, category) - 0.5 < info.cornerRadius as real <= CornerRadius(rw, rh, category) + 0.5
      && info.regionOrientation == GetOrientation(rw, rh)
    ensures info.deviceAngle == GetDeviceAngle(rect)
    ensures info.image.Some? <==> natural.Some?
    ensures natural.Some? ==> var (iw, ih) := natural.value;
      && info.image.value.orientationMatched == IsOrientationMatched(iw, ih, rect.wPct * containerW, rect.hPct * containerH)
      && info.image.value.orientation == GetOrientation(iw, ih)
      && info.image.value.width == iw && info.image.value.height == ih
      && info.image.value.fittingCorrectly
      && info.image.value.fitMode == fitMode
  {
    var regionW := rect.wPct * containerW;
    var regionH := rect.hPct * containerH;
    var image := if natural.Some? then
      var (iw, ih) := natural.value;
      Some(ImageDebug(GetOrientation(iw, ih), iw, ih, IsOrientationMatched(iw, ih, regionW, regionH), true, fitMode))
    else None;
    DeviceDebugInfo(frameName, deviceIndex, GetDeviceAngle(rect), Round(regionW), Round(regionH),
                    GetOrientation(regionW, regionH), Round(CornerRadius(regionW, regionH, category)), image)
  }

  /** The angle is taken from the rectangle's own proportions, not from the
      region's size in the container: half the width and half the height of
      a 200 × 100 container is a landscape region drawn at 0 degrees. */
  lemma AngleIgnoresContainer()
    ensures var info := GenerateDeviceDebugInfo("", 0, ScreenRectPct(0.0, 0.0, 0.5, 0.5), 200.0, 100.0, None, None, None);
      info.regionOrientation == Landscape && info.deviceAngle == 0
  {
    PositiveOrientation(100.0, 50.0);
  }
}
