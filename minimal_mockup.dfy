/** The single-slot mockup: one frame, one detected screen region at a time,
    drawn in a fixed tint; the detected box replaces the frame's own screen
    rectangle. */
module Minimal {
  import opened Raster
  import opened SeedSearch
  import opened Segmentation
  import opened MaskRaster
  import opened DeviceColors
  import MultiDevice

  // ---------------------------------------------------------------------
  // Aspect ratio and screen rectangle

  /** `aspectToCss` of this component: only two ratios are told apart. */
  function AspectToCss(aspect: string): string {
    if aspect == "9:16" then "9 / 16"
    else if aspect == "16:9" then "16 / 9"
    else "1 / 1"
  }

  /** Both components write the same CSS value for an aspect, except for the
      three ratios only the multi-device mockup knows, which this one shows
      square. */
  lemma AspectToCssAgrees(aspect: string)
    ensures AspectToCss(aspect) == MultiDevice.AspectToCss(aspect) <==> aspect !in ["4:5", "3:4", "8:9"]
    ensures aspect in ["4:5", "3:4", "8:9"] ==> AspectToCss(aspect) == "1 / 1"
  {
    assert "4 / 5" != "1 / 1" && "3 / 4" != "1 / 1" && "8 / 9" != "1 / 1";
  }

  /** The part of a frame's metadata the component reads. */
  datatype FrameMeta = FrameMeta(id: string, screenRect: Option<ScreenRectPct>)

  /** The screen box assumed for a frame that declares none. */
  const DefaultRect := ScreenRectPct(0.1, 0.1, 0.8, 0.8)

  /** `activeRect`: the detected box if there is one, else the frame's own
      screen rectangle, else the default box; nothing without a frame. */
  function ActiveRect(custom: Option<ScreenRectPct>, selected: Option<FrameMeta>): (r: Option<ScreenRectPct>)
    ensures r.None? <==> custom.None? && selected.None?
    ensures custom.Some? ==> r == custom
    ensures custom.None? && selected.Some? && selected.value.screenRect.Some? ==> r == selected.value.screenRect
    ensures custom.None? && selected.Some? && selected.value.screenRect.None? ==> r == Some(DefaultRect)
  {
    if custom.Some? then custom
    else if selected.None? then None
    else if selected.value.screenRect.Some? then selected.value.screenRect
    else Some(DefaultRect)
  }

  /** The default box is centred and covers the middle 80 % of each side. */
  lemma DefaultRectCentred()
    ensures 0.0 <= DefaultRect.xPct && DefaultRect.xPct + DefaultRect.wPct <= 1.0
    ensures 0.0 <= DefaultRect.yPct && DefaultRect.yPct + DefaultRect.hPct <= 1.0
    ensures DefaultRect.xPct == 1.0 - (DefaultRect.xPct + DefaultRect.wPct)
    ensures DefaultRect.yPct == 1.0 - (DefaultRect.yPct + DefaultRect.hPct)
  {
  }

  // ---------------------------------------------------------------------
  // The overlay

  /** The fixed selection tint, #e5c4be. */
  const Tint: (int, int, int) := (0xE5, 0xC4, 0xBE)

  /** The tint is the colour of the multi-device mockup's first slot. */
  lemma TintIsFirstSlotColour()
    ensures FillRgb(GetDeviceColor(0)) == Tint
  {
    SlotTints();
  }

  /** The overlay of a W × H frame: cleared, then the kept mask (if any)
      painted in the tint. */
  function Shown(W: nat, H: nat, last: Option<Region>): (c: seq<int>)
    requires W > 0 && (last.Some? ==> MultiDevice.MaskShaped(last.value))
    ensures |c| == 4 * (W * H)
  {
    match last
    case None => MultiDevice.Transparent(4 * (W * H))
    case Some(r) => MultiDevice.PaintRegion(MultiDevice.Transparent(4 * (W * H)), W, H, r, Tint)
  }

  /** The overlay is opaque tint exactly over the kept mask and transparent
      black everywhere else. */
  lemma ShownPixel(W: nat, H: nat, last: Option<Region>, x: int, y: int, c: int)
    requires W > 0 && (last.Some? ==> MultiDevice.MaskShaped(last.value))
    requires InGrid(W, H, x, y) && 0 <= c < 4
    ensures ByteAt(Shown(W, H, last), 4 * Pos(W, x, y) + c) ==
      if last.Some? && InGrid(last.value.rw, last.value.rh, x - last.value.rx, y - last.value.ry)
         && At(last.value.mask, Pos(last.value.rw, x - last.value.rx, y - last.value.ry))
      then Opaque(Tint, c) else 0
  {
    PosInRange(W, H, x, y);
    var blank := MultiDevice.Transparent(4 * (W * H));
    if last.Some? {
      var r := last.value;
      PaintOnCanvas(blank, W, H, r.rx, r.ry, r.rw, r.rh, r.mask, Tint, x, y, c);
    }
  }

  // ---------------------------------------------------------------------
  // The component state

  /** What a click did, as the debug log records it. */
  datatype ClickOutcome =
    | NoFrame
    | NoWhiteNearby
    | Selected(seed: (int, int), region: Region)

  class MinimalMockup {
    var selected: Option<FrameMeta>
    /** The frame's pixels (`offscreenImageDataRef`), once loaded. */
    var frame: Option<Image>
    /** `customRectPct`: the detected box as fractions of the frame. */
    var customRect: Option<ScreenRectPct>
    /** `lastMaskRef`: the region of the last detection. */
    var lastMask: Option<Region>
    /** The mask images and the dark overlay, as the pixel data their URLs
        encode (the feathered mask without its blur). */
    var maskImage: Option<seq<int>>
    var hardMaskImage: Option<seq<int>>
    var darkOverlay: Option<seq<int>>
    /** The overlay canvas pixels, frame-sized. */
    var overlay: seq<int>

    /** A kept region always comes with its frame, its mask images and its
        dark overlay, and the overlay shows exactly that region. */
    ghost predicate Valid()
      reads this
    {
      && (frame.None? ==> lastMask.None? && overlay == [])
      && (lastMask.Some? ==> MultiDevice.MaskShaped(lastMask.value))
      && (maskImage.Some? <==> lastMask.Some?)
      && (hardMaskImage.Some? <==> lastMask.Some?)
      && (darkOverlay.Some? <==> lastMask.Some?)
      && (lastMask.Some? ==>
            && maskImage == Some(MaskRgba(lastMask.value.mask))
            && hardMaskImage == Some(MaskRgba(lastMask.value.mask)))
      && (frame.Some? ==>
            && MultiDevice.FrameOk(frame.value)
            && overlay == Shown(frame.value.width, frame.value.height, lastMask)
            && (lastMask.Some? ==>
                  darkOverlay == Some(DarkRgba(frame.value, lastMask.value.rx, lastMask.value.ry, lastMask.value.rw, lastMask.value.dark))))
    }

    constructor()
      ensures Valid()
      ensures selected.None? && frame.None? && customRect.None? && lastMask.None?
    {
      selected := None;
      frame := None;
      customRect := None;
      lastMask := None;
      maskImage := None;
      hardMaskImage := None;
      darkOverlay := None;
      overlay := [];
    }

    /** `clearOverlay`: clear the canvas and forget the box, the mask images
        and the kept region. */
    method ClearOverlay()
      requires Valid()
      modifies this
      ensures Valid()
      ensures selected == old(selected) && frame == old(frame)
      ensures customRect.None? && lastMask.None? && maskImage.None? && hardMaskImage.None? && darkOverlay.None?
    {
      customRect := None;
      maskImage := None;
      hardMaskImage := None;
      darkOverlay := None;
      lastMask := None;
      if frame.Some? {
        overlay := MultiDevice.Transparent(4 * (frame.value.width * frame.value.height));
      }
    }

    /** Choosing a frame and reading its pixels: the selector drops the box
        and clears the overlay, then the load handler keeps the pixels and
        starts from a blank overlay. */
    method SelectFrame(meta: FrameMeta, img: Image)
      requires Valid() && MultiDevice.FrameOk(img)
      modifies this
      ensures Valid()
      ensures selected == Some(meta) && frame == Some(img)
      ensures customRect.None? && lastMask.None?
      ensures ActiveRect(customRect, selected) == Some(if meta.screenRect.Some? then meta.screenRect.value else DefaultRect)
      ensures overlay == MultiDevice.Transparent(4 * (img.width * img.height))
    {
      selected := Some(meta);
      ClearOverlay();
      frame := Some(img);
      overlay := MultiDevice.Transparent(4 * (img.width * img.height));
    }

    /** `onOverlayClick` at frame pixel (x, y). */
    method OnOverlayClick(x: int, y: int) returns (outcome: ClickOutcome)
      requires Valid()
      requires frame.Some? ==> InGrid(frame.value.width, frame.value.height, x, y)
      modifies this
      ensures Valid() && frame == old(frame) && selected == old(selected)
      ensures outcome.NoFrame? <==> old(frame).None?
      ensures !outcome.Selected? ==>
        customRect == old(customRect) && lastMask == old(lastMask) && overlay == old(overlay)
        && maskImage == old(maskImage) && hardMaskImage == old(hardMaskImage) && darkOverlay == old(darkOverlay)
      ensures old(frame).Some? ==>
        var img := old(frame).value;
        && (outcome.NoWhiteNearby? <==> !WhiteAt(img, Pos(img.width, x, y)) && NoSeedWithin(img, x, y, SeedRadius))
        && (outcome.Selected? ==>
              var r := outcome.region;
              && SegmentOf(img, outcome.seed.0, outcome.seed.1, r)
              && (WhiteAt(img, Pos(img.width, x, y)) ==> outcome.seed == (x, y))
              && Dist(x, y, outcome.seed.0, outcome.seed.1) <= SeedRadius
              && lastMask == Some(r)
              && customRect == Some(RectOf(img.width, img.height, r.rx, r.ry, r.rw, r.rh))
              && ActiveRect(customRect, selected) == customRect)
    {
      if frame.None? {
        return NoFrame;
      }
      var img := frame.value;
      var seed, found := Segment(img, x, y);
      if found.None? {
        return NoWhiteNearby;
      }
      var r := found.value;
      MultiDevice.SegmentShape(img, seed.value.0, seed.value.1, r);
      StoreRegion(r);
      return Selected(seed.value, r);
    }

    /** The tail of a successful click: paint region r alone into the
        overlay, keep it, build its images and use its box as the screen
        rectangle. */
    method StoreRegion(r: Region)
      requires Valid() && frame.Some? && MultiDevice.MaskShaped(r)
      modifies this
      ensures Valid() && frame == old(frame) && selected == old(selected)
      ensures lastMask == Some(r)
      ensures customRect == Some(RectOf(frame.value.width, frame.value.height, r.rx, r.ry, r.rw, r.rh))
    {
      var img := frame.value;
      var W, H := img.width, img.height;
      var canvas := MultiDevice.Transparent(4 * (W * H));
      canvas := DrawMaskIntoOverlay(canvas, W, H, r.rx, r.ry, r.rw, r.rh, r.mask, Tint);
      overlay := canvas;
      lastMask := Some(r);
      var m := MaskToRgba(r.mask, r.rw, r.rh);
      var hm := MaskToRgba(r.mask, r.rw, r.rh);
      maskImage, hardMaskImage := Some(m), Some(hm);
      var dark := DarkOverlay(img, r.rx, r.ry, r.rw, r.rh, r.dark);
      darkOverlay := Some(dark);
      customRect := Some(RectOf(W, H, r.rx, r.ry, r.rw, r.rh));
    }
  }
}
