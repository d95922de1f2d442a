/** The multi-device mockup: up to three screen regions detected on one frame,
    one per slot. A click inside an existing region makes that slot active; a
    click elsewhere segments a new region into the first free slot. The
    overlay canvas shows every kept mask in its slot's colour. */
module MultiDevice {
  import opened Raster
  import opened SeedSearch
  import opened Segmentation
  import opened MaskRaster
  import opened DeviceColors

  // ---------------------------------------------------------------------
  // Aspect ratios

  /** The aspect ratios the mockup offers. */
  const SupportedAspects: seq<string> := ["9:16", "16:9", "1:1", "4:5", "3:4", "8:9"]

  /** `aspectToCss`: the CSS `aspect-ratio` value for an aspect choice. */
  function AspectToCss(aspect: string): string {
    if aspect == "9:16" then "9 / 16"
    else if aspect == "16:9" then "16 / 9"
    else if aspect == "1:1" then "1 / 1"
    else if aspect == "4:5" then "4 / 5"
    else if aspect == "3:4" then "3 / 4"
    else if aspect == "8:9" then "8 / 9"
    else "1 / 1"
  }

  /** The offered ratios as (width, height) digit strings. */
  const SupportedRatios: seq<(string, string)> := [("9", "16"), ("16", "9"), ("1", "1"), ("4", "5"), ("3", "4"), ("8", "9")]

  /** The offered aspects are the ratios written "a:b". */
  lemma SupportedAspectsAreRatios()
    ensures |SupportedAspects| == |SupportedRatios|
    ensures forall i :: 0 <= i < |SupportedRatios| ==>
      SupportedAspects[i] == SupportedRatios[i].0 + ":" + SupportedRatios[i].1
  {
  }

  /** Every offered ratio "a:b" becomes "a / b". */
  lemma AspectToCssSlashes()
    ensures forall i :: 0 <= i < |SupportedRatios| ==>
      AspectToCss(SupportedRatios[i].0 + ":" + SupportedRatios[i].1) == SupportedRatios[i].0 + " / " + SupportedRatios[i].1
  {
    assert "9" + ":" + "16" == "9:16" && "16" + ":" + "9" == "16:9" && "1" + ":" + "1" == "1:1";
    assert "4" + ":" + "5" == "4:5" && "3" + ":" + "4" == "3:4" && "8" + ":" + "9" == "8:9";
    assert "9" + " / " + "16" == "9 / 16" && "16" + " / " + "9" == "16 / 9" && "1" + " / " + "1" == "1 / 1";
    assert "4" + " / " + "5" == "4 / 5" && "3" + " / " + "4" == "3 / 4" && "8" + " / " + "9" == "8 / 9";
  }

  /** Any other aspect value falls back to a square. */
  lemma AspectToCssFallback(aspect: string)
    requires aspect !in SupportedAspects
    ensures AspectToCss(aspect) == "1 / 1"
  {
    assert aspect != SupportedAspects[0] && aspect != SupportedAspects[1] && aspect != SupportedAspects[2];
    assert aspect != SupportedAspects[3] && aspect != SupportedAspects[4] && aspect != SupportedAspects[5];
  }

  // ---------------------------------------------------------------------
  // Slots

  /** One slot's record. The data URLs are modelled by the pixel data they
      encode; the image upload fields are not part of this model. */
  datatype DeviceSlot = DeviceSlot(
    deviceIndex: DeviceIndex,
    rect: Option<ScreenRectPct>,
    maskImage: Option<seq<int>>,
    hardMaskImage: Option<seq<int>>,
    darkOverlay: Option<seq<int>>,
    composite: Option<seq<int>>,
    fillColor: string,
    isActive: bool)

  /** The record a slot starts with. */
  function InitialSlot(i: DeviceIndex): DeviceSlot {
    DeviceSlot(i, None, None, None, None, None, GetDeviceColor(i), false)
  }

  /** A slot emptied by `clearDevice` or `clearOverlay`. */
  function Cleared(s: DeviceSlot): DeviceSlot {
    s.(rect := None, maskImage := None, hardMaskImage := None, darkOverlay := None, composite := None, isActive := false)
  }

  /** Every slot cleared, as `clearOverlay` leaves them. */
  function ClearedAll(slots: seq<DeviceSlot>): (t: seq<DeviceSlot>)
    ensures |t| == |slots| && forall i :: 0 <= i < |slots| ==> t[i] == Cleared(slots[i])
  {
    seq(|slots|, i requires 0 <= i < |slots| => Cleared(slots[i]))
  }

  /** A frame the offscreen canvas can hold: loaded, so at least 1 × 1. */
  predicate FrameOk(img: Image) {
    img.Valid() && img.width > 0 && img.height > 0
  }

  /** A kept region's masks are rw × rh. */
  predicate MaskShaped(r: Region) {
    r.rw > 0 && |r.mask| == r.rw * r.rh && |r.dark| == r.rw * r.rh
  }

  /** The slot after a new detection: the box as a fraction of the frame,
      the mask images (unblurred) and the dark overlay, and active. */
  function Detected(s: DeviceSlot, frame: Image, r: Region): DeviceSlot
    requires FrameOk(frame) && r.rw > 0
  {
    s.(rect := Some(RectOf(frame.width, frame.height, r.rx, r.ry, r.rw, r.rh)),
       maskImage := Some(MaskRgba(r.mask)),
       hardMaskImage := Some(MaskRgba(r.mask)),
       darkOverlay := Some(DarkRgba(frame, r.rx, r.ry, r.rw, r.dark)),
       isActive := true)
  }

  /** Click (x, y) lies in the closed rectangle of slot s scaled to the frame. */
  predicate Hit(s: DeviceSlot, fw: nat, fh: nat, x: int, y: int) {
    && s.rect.Some?
    && var rx, ry := s.rect.value.xPct * fw as real, s.rect.value.yPct * fh as real;
       var rw, rh := s.rect.value.wPct * fw as real, s.rect.value.hPct * fh as real;
       rx <= x as real <= rx + rw && ry <= y as real <= ry + rh
  }

  /** The highest-numbered slot below n whose rectangle contains the click. */
  function TopHit(slots: seq<DeviceSlot>, n: nat, fw: nat, fh: nat, x: int, y: int): (r: Option<nat>)
    requires n <= |slots|
    ensures r.Some? ==> r.value < n && Hit(slots[r.value], fw, fh, x, y)
    ensures r.Some? ==> forall j :: r.value < j < n ==> !Hit(slots[j], fw, fh, x, y)
    ensures r.None? ==> forall j :: 0 <= j < n ==> !Hit(slots[j], fw, fh, x, y)
  {
    if n == 0 then None
    else if Hit(slots[n - 1], fw, fh, x, y) then Some(n - 1)
    else TopHit(slots, n - 1, fw, fh, x, y)
  }

  /** `findIndex(r => !r.isActive)` over the slots from i on. */
  function FirstInactive(slots: seq<DeviceSlot>, i: nat): (r: Option<nat>)
    requires i <= |slots|
    ensures r.Some? ==> i <= r.value < |slots| && !slots[r.value].isActive
    ensures r.Some? ==> forall j :: i <= j < r.value ==> slots[j].isActive
    ensures r.None? <==> forall j :: i <= j < |slots| ==> slots[j].isActive
    decreases |slots| - i
  {
    if i == |slots| then None
    else if !slots[i].isActive then Some(i)
    else FirstInactive(slots, i + 1)
  }

  // ---------------------------------------------------------------------
  // The overlay canvas

  /** A cleared canvas buffer. */
  function Transparent(n: nat): (c: seq<int>)
    ensures |c| == n && forall i :: 0 <= i < n ==> c[i] == 0
  {
    seq(n, _ => 0)
  }

  /** Slot i is drawn: it has a rectangle and a kept mask. */
  predicate Drawn(slots: seq<DeviceSlot>, masks: map<DeviceIndex, Region>, i: int) {
    0 <= i < |slots| && i < 3 && slots[i].rect.Some? && i in masks
  }

  /** Painting region r in colour rgb onto a W-wide canvas. */
  function PaintRegion(canvas: seq<int>, W: nat, H: nat, r: Region, rgb: (int, int, int)): (c: seq<int>)
    requires W > 0 && r.rw > 0
    ensures |c| == |canvas|
  {
    PutImageData(canvas, W, Painted(GetImageData(canvas, W, H, r.rx, r.ry, r.rw, r.rh), r.mask, rgb), r.rx, r.ry, r.rw, r.rh)
  }

  /** The overlay after `drawMaskIntoOverlay` has cleared the canvas and
      painted the drawn slots among the first n, in slot order. */
  function OverlayOf(W: nat, H: nat, slots: seq<DeviceSlot>, masks: map<DeviceIndex, Region>, n: nat): (c: seq<int>)
    requires W > 0 && n <= |slots|
    requires forall i :: i in masks ==> MaskShaped(masks[i])
    ensures |c| == 4 * (W * H)
  {
    if n == 0 then Transparent(4 * (W * H))
    else
      var c := OverlayOf(W, H, slots, masks, n - 1);
      if Drawn(slots, masks, n - 1)
      then PaintRegion(c, W, H, masks[n - 1], FillRgb(slots[n - 1].fillColor))
      else c
  }

  /** Slot i's mask covers frame pixel (x, y). */
  predicate Covers(slots: seq<DeviceSlot>, masks: map<DeviceIndex, Region>, i: int, x: int, y: int) {
    && Drawn(slots, masks, i)
    && var r := masks[i];
       InGrid(r.rw, r.rh, x - r.rx, y - r.ry) && At(r.mask, Pos(r.rw, x - r.rx, y - r.ry))
  }

  /** The highest-numbered slot below n whose mask covers (x, y). */
  function TopCover(slots: seq<DeviceSlot>, masks: map<DeviceIndex, Region>, n: nat, x: int, y: int): (r: Option<nat>)
    requires n <= |slots|
    ensures r.Some? ==> r.value < n && Covers(slots, masks, r.value, x, y)
    ensures r.Some? ==> forall j :: r.value < j < n ==> !Covers(slots, masks, j, x, y)
    ensures r.None? ==> forall j :: 0 <= j < n ==> !Covers(slots, masks, j, x, y)
  {
    if n == 0 then None
    else if Covers(slots, masks, n - 1, x, y) then Some(n - 1)
    else TopCover(slots, masks, n - 1, x, y)
  }

  /** What the overlay shows at pixel (x, y): the opaque colour of the last
      slot whose mask covers it (later slots paint over earlier ones), and
      transparent black where no mask does. */
  lemma {:induction false} OverlayPixel(W: nat, H: nat, slots: seq<DeviceSlot>, masks: map<DeviceIndex, Region>,
                                        n: nat, x: int, y: int, c: int)
    requires W > 0 && n <= |slots|
    requires forall i :: i in masks ==> MaskShaped(masks[i])
    requires InGrid(W, H, x, y) && 0 <= c < 4
    ensures ByteAt(OverlayOf(W, H, slots, masks, n), 4 * Pos(W, x, y) + c) ==
      match TopCover(slots, masks, n, x, y)
      case None => 0
      case Some(i) => Opaque(FillRgb(slots[i].fillColor), c)
  {
    if n > 0 {
      OverlayPixel(W, H, slots, masks, n - 1, x, y, c);
      OverlayStep(W, H, slots, masks, n, x, y, c);
    }
  }

  /** Drawing slot n - 1 changes pixel (x, y) exactly when its mask covers
      it, to the slot's colour. */
  lemma OverlayStep(W: nat, H: nat, slots: seq<DeviceSlot>, masks: map<DeviceIndex, Region>,
                    n: nat, x: int, y: int, c: int)
    requires W > 0 && 0 < n <= |slots|
    requires forall i :: i in masks ==> MaskShaped(masks[i])
    requires InGrid(W, H, x, y) && 0 <= c < 4
    ensures ByteAt(OverlayOf(W, H, slots, masks, n), 4 * Pos(W, x, y) + c) ==
      if Covers(slots, masks, n - 1, x, y) then Opaque(FillRgb(slots[n - 1].fillColor), c)
      else ByteAt(OverlayOf(W, H, slots, masks, n - 1), 4 * Pos(W, x, y) + c)
  {
    var prev := OverlayOf(W, H, slots, masks, n - 1);
    if Drawn(slots, masks, n - 1) {
      var r, rgb := masks[n - 1], FillRgb(slots[n - 1].fillColor);
      assert OverlayOf(W, H, slots, masks, n) == PaintRegion(prev, W, H, r, rgb);
      PaintOnCanvas(prev, W, H, r.rx, r.ry, r.rw, r.rh, r.mask, rgb, x, y, c);
    }
  }

  /** A segmented region has masks shaped to its box. */
  lemma SegmentShape(img: Image, sx: int, sy: int, r: Region)
    requires SegmentOf(img, sx, sy, r)
    ensures MaskShaped(r)
  {
  }

  // ---------------------------------------------------------------------
  // Resetting on a new frame

  /** The reset applied to each slot once a new frame's pixels are read:
      rectangle, mask images and composite are dropped; `isActive` is not
      touched. */
  function ResetForFrame(s: DeviceSlot): DeviceSlot {
    s.(rect := None, maskImage := None, hardMaskImage := None, darkOverlay := None, composite := None)
  }

  /** The reset applied to every slot. */
  function ResetAll(slots: seq<DeviceSlot>): (t: seq<DeviceSlot>)
    ensures |t| == |slots| && forall i :: 0 <= i < |slots| ==> t[i] == ResetForFrame(slots[i])
  {
    seq(|slots|, i requires 0 <= i < |slots| => ResetForFrame(slots[i]))
  }

  /** Selecting a frame clears every slot first, so the later reset leaves
      the slots as the clearing left them: all free and empty. */
  lemma ResetAfterClear(slots: seq<DeviceSlot>)
    ensures ResetAll(ClearedAll(slots)) == ClearedAll(slots)
    ensures forall i :: 0 <= i < |slots| ==> !ClearedAll(slots)[i].isActive && ClearedAll(slots)[i].rect.None?
  {
    assert forall i :: 0 <= i < |slots| ==> ResetAll(ClearedAll(slots))[i] == ClearedAll(slots)[i];
  }

  // ---------------------------------------------------------------------
  // The component state

  /** What a click did, as the debug log records it. */
  datatype ClickOutcome =
    | NoFrame
    | Switched(index: DeviceIndex)
    | MaxDevicesReached
    | NoWhiteNearby
    | Created(index: DeviceIndex, seed: (int, int), region: Region)

  class MultiDeviceMockup {
    /** The frame's pixels (`offscreenImageDataRef`), once loaded. */
    var frame: Option<Image>
    /** `deviceRegions`: the three slot records. */
    var regions: seq<DeviceSlot>
    var activeDeviceIndex: Option<DeviceIndex>
    /** `lastMasksRef`: the region kept for each used slot. */
    var lastMasks: map<DeviceIndex, Region>
    /** The overlay canvas pixels, frame-sized. */
    var overlay: seq<int>

    /** The slots keep their index and colour; a slot is active exactly when
        it has a rectangle and a kept mask; the overlay shows the kept masks. */
    ghost predicate Valid()
      reads this
    {
      && |regions| == 3
      && (forall i :: 0 <= i < 3 ==> regions[i].deviceIndex == i && regions[i].fillColor == GetDeviceColor(i))
      && (forall i: DeviceIndex :: (i in lastMasks <==> regions[i].isActive) && (regions[i].rect.Some? <==> regions[i].isActive))
      && (forall i :: i in lastMasks ==> MaskShaped(lastMasks[i]))
      && (frame.None? ==> lastMasks == map[] && overlay == [])
      && (frame.Some? ==> FrameOk(frame.value) && overlay == OverlayOf(frame.value.width, frame.value.height, regions, lastMasks, 3))
    }

    /** The three slots as the mount effect creates them. */
    constructor()
      ensures Valid()
      ensures regions == [InitialSlot(0), InitialSlot(1), InitialSlot(2)]
      ensures frame.None? && activeDeviceIndex.None? && lastMasks == map[]
    {
      frame := None;
      regions := [InitialSlot(0), InitialSlot(1), InitialSlot(2)];
      activeDeviceIndex := None;
      lastMasks := map[];
      overlay := [];
    }

    /** `drawMaskIntoOverlay`: clear the canvas, then paint each slot that
        has a rectangle and a kept mask, in slot order. */
    method DrawMasksIntoOverlay()
      requires frame.Some? && FrameOk(frame.value) && |regions| == 3
      requires forall i :: i in lastMasks ==> MaskShaped(lastMasks[i])
      modifies this`overlay
      ensures overlay == OverlayOf(frame.value.width, frame.value.height, regions, lastMasks, 3)
    {
      var W, H := frame.value.width, frame.value.height;
      var canvas := Transparent(4 * (W * H));
      for idx := 0 to 3
        invariant canvas == OverlayOf(W, H, regions, lastMasks, idx)
      {
        if regions[idx].rect.Some? && idx in lastMasks {
          var r := lastMasks[idx];
          canvas := DrawMaskIntoOverlay(canvas, W, H, r.rx, r.ry, r.rw, r.rh, r.mask, FillRgb(regions[idx].fillColor));
        }
      }
      overlay := canvas;
    }

    /** Selecting a frame and reading its pixels: the selector clears the
        overlay and every slot, then the load handler keeps the pixels,
        resets the slots' images and forgets the kept masks. */
    method SelectFrame(img: Image)
      requires Valid() && FrameOk(img)
      modifies this
      ensures Valid()
      ensures frame == Some(img) && lastMasks == map[] && activeDeviceIndex.None?
      ensures regions == ClearedAll(old(regions))
    {
      ClearOverlay();
      frame := Some(img);
      ResetAfterClear(old(regions));
      regions := ResetAll(regions);
      lastMasks := map[];
      DrawMasksIntoOverlay();
    }

    /** `findDeviceIndexByPosition`: scan the slots from the last to the
        first and return the first whose rectangle contains the click. */
    method FindDeviceIndexByPosition(x: int, y: int) returns (idx: Option<nat>)
      requires |regions| == 3
      ensures frame.None? ==> idx.None?
      ensures frame.Some? ==> idx == TopHit(regions, 3, frame.value.width, frame.value.height, x, y)
    {
      if frame.None? {
        return None;
      }
      var fw, fh := frame.value.width, frame.value.height;
      var i := |regions| - 1;
      while i >= 0
        invariant -1 <= i < 3
        invariant TopHit(regions, 3, fw, fh, x, y) == TopHit(regions, i + 1, fw, fh, x, y)
      {
        var region := regions[i];
        if region.rect.Some? {
          var rx := region.rect.value.xPct * fw as real;
          var ry := region.rect.value.yPct * fh as real;
          var rw := region.rect.value.wPct * fw as real;
          var rh := region.rect.value.hPct * fh as real;
          if x as real >= rx && x as real <= rx + rw && y as real >= ry && y as real <= ry + rh {
            return Some(i);
          }
        }
        i := i - 1;
      }
      return None;
    }

    /** `onOverlayClick` at frame pixel (x, y). */
    method OnOverlayClick(x: int, y: int) returns (outcome: ClickOutcome)
      requires Valid()
      requires frame.Some? ==> InGrid(frame.value.width, frame.value.height, x, y)
      modifies this
      ensures Valid() && frame == old(frame)
      ensures old(frame).None? ==> outcome == NoFrame
      ensures !outcome.Created? ==> regions == old(regions) && lastMasks == old(lastMasks) && overlay == old(overlay)
      ensures !outcome.Created? && !outcome.Switched? ==> activeDeviceIndex == old(activeDeviceIndex)
      ensures old(frame).Some? ==>
        var img := old(frame).value;
        var hit := TopHit(old(regions), 3, img.width, img.height, x, y);
        && (hit.Some? ==> outcome == Switched(hit.value) && activeDeviceIndex == Some(hit.value))
        && (hit.None? && FirstInactive(old(regions), 0).None? ==> outcome == MaxDevicesReached)
        && (hit.None? && FirstInactive(old(regions), 0).Some? ==>
              outcome.NoWhiteNearby? || (outcome.Created? && outcome.index == FirstInactive(old(regions), 0).value))
        && (outcome.NoWhiteNearby? <==>
              hit.None? && FirstInactive(old(regions), 0).Some?
              && !WhiteAt(img, Pos(img.width, x, y)) && NoSeedWithin(img, x, y, SeedRadius))
        && (outcome.Created? ==>
              var k := outcome.index;
              && SegmentOf(img, outcome.seed.0, outcome.seed.1, outcome.region)
              && (WhiteAt(img, Pos(img.width, x, y)) ==> outcome.seed == (x, y))
              && Dist(x, y, outcome.seed.0, outcome.seed.1) <= SeedRadius
              && lastMasks == old(lastMasks)[k := outcome.region]
              && regions == old(regions)[k := Detected(old(regions)[k], img, outcome.region)]
              && activeDeviceIndex == Some(k))
    {
      if frame.None? {
        return NoFrame;
      }
      var img := frame.value;
      var existing := FindDeviceIndexByPosition(x, y);
      if existing.Some? {
        activeDeviceIndex := Some(existing.value);
        return Switched(existing.value);
      }
      var available := FirstInactive(regions, 0);
      if available.None? {
        return MaxDevicesReached;
      }
      var seed, found := Segment(img, x, y);
      if found.None? {
        return NoWhiteNearby;
      }
      var r := found.value;
      SegmentShape(img, seed.value.0, seed.value.1, r);
      StoreRegion(available.value, r);
      return Created(available.value, seed.value, r);
    }

    /** The tail of a successful click: keep region r for free slot k, fill
        the slot's record, make it active and redraw the overlay. */
    method StoreRegion(k: DeviceIndex, r: Region)
      requires Valid() && frame.Some? && MaskShaped(r)
      modifies this
      ensures Valid() && frame == old(frame)
      ensures lastMasks == old(lastMasks)[k := r]
      ensures regions == old(regions)[k := Detected(old(regions)[k], frame.value, r)]
      ensures activeDeviceIndex == Some(k)
    {
      var img := frame.value;
      lastMasks := lastMasks[k := r];
      var maskImage := MaskToRgba(r.mask, r.rw, r.rh);
      var hardImage := MaskToRgba(r.mask, r.rw, r.rh);
      var dark := DarkOverlay(img, r.rx, r.ry, r.rw, r.rh, r.dark);
      var rect := RectOf(img.width, img.height, r.rx, r.ry, r.rw, r.rh);
      regions := regions[k := regions[k].(rect := Some(rect), maskImage := Some(maskImage),
                                          hardMaskImage := Some(hardImage), darkOverlay := Some(dark), isActive := true)];
      activeDeviceIndex := Some(k);
      DrawMasksIntoOverlay();
    }

    /** `clearDevice`: forget slot idx's region and free the slot; the other
        slots are untouched. */
    method ClearDevice(idx: DeviceIndex)
      requires Valid()
      modifies this
      ensures Valid()
      ensures frame == old(frame) && activeDeviceIndex == old(activeDeviceIndex)
      ensures lastMasks == old(lastMasks) - {idx}
      ensures regions == old(regions)[idx := Cleared(old(regions)[idx])]
    {
      lastMasks := lastMasks - {idx};
      regions := regions[idx := Cleared(regions[idx])];
      if frame.Some? {
        DrawMasksIntoOverlay();
      }
    }

    /** `clearOverlay`: clear the canvas, free every slot and forget every
        region and the active slot. */
    method ClearOverlay()
      requires Valid()
      modifies this
      ensures Valid()
      ensures frame == old(frame) && activeDeviceIndex.None? && lastMasks == map[]
      ensures regions == ClearedAll(old(regions))
    {
      regions := ClearedAll(regions);
      lastMasks := map[];
      activeDeviceIndex := None;
      if frame.Some? {
        DrawMasksIntoOverlay();
      }
    }
  }
}
