# Device mockup: screen segmentation and device analysis

This project models the core of a device-mockup tool in Dafny. The tool shows
a photo of a device (a "frame"), lets the user click on the device's white
screen area, finds that screen region by flood fill, and fills it with an
uploaded picture. Around that core sit heuristics that decide what kind of
device a region belongs to, which way it points, and how much bleed an image
needs.

What is modelled, module by module:

- `Raster`: the browser's `ImageData` (width, height, row-major RGBA bytes),
  the whiteness test and luminance. Luminance is compared exactly as
  `299 r + 587 g + 114 b` against the threshold × 1000.
- `SeedSearch`, `FloodFill`, `HoleFill`, `Segmentation`, `Grid`: the click
  handler's segmentation.
  - Seed search over Manhattan rings.
  - Depth-first flood through white pixels, with the bounding box.
  - Base mask cropped to the box.
  - Breadth-first flood of the non-mask cells from the box border.
  - Classification of the unreachable cells (holes) into the final mask
    (white holes) and the dark-overlay mask (opaque non-white holes).

  The loops keep the source's arrays, stack and queue. They are proved
  against reachability (`Grid.Reaches`) and the source's classification.
- `MaskRaster`: the pixel loops.
  - The mask image (`maskToDataUrl` without the blur).
  - The dark overlay copy.
  - Painting a mask into the overlay canvas (`drawMaskIntoOverlay`).
  - The fill colour parsed from its hex string.
- `MultiDevice`: the three-slot mockup as a class. It covers slot choice, hit
  testing from the last slot down, clearing one slot or all, frame
  selection and the overlay invariant.
- `Minimal`: the single-slot mockup as a class. It covers the `activeRect`
  fallback, its own `aspectToCss` and the fixed tint.
- `DeviceColors`: the slot colour table. `Fit`: `containSize` and
  `coverSize`.
- `DeviceFeatures`, `PixelScan`: the pixel detectors of
  `deviceTypeDetection.ts`. These are the keyboard band below the screen, the
  keyboard in the lower mask bands, the metal side, the black cutout and the
  notch centroid. Each scanning loop is proved equal to a counting
  definition.
- `DeviceTypeDetection`: the rule deciders of `deviceTypeDetection.ts`. They
  are the type decision, its confidence, the direction and rotation rules,
  and the bleed and display-name tables.
- `DeviceTypeAnalyzer`: the score-based analyser and the layout summary.
- `ShapeDetector`: the quadrilateral classifier and its score modifiers.
- `DeviceOrientation`: orientation, device angle, orientation match, corner
  radius and the debug record.
- `DebugAnalysis`: the white-margin count and bleed advice, and the rotation
  buckets of the orientation analysis.
- `DeviceDebugger`: the debug record's issues and warnings, word wrapping,
  and the smartphone validation.
- `JsNumber`: JavaScript's division by zero (an infinity or NaN) and how
  comparisons behave on those results.

All file paths below are relative to the repository root.

## Model

| member | source | states |
|---|---|---|
| Raster.WhiteMap | src/features/mockup/components/MultiDeviceMockup.tsx:27-30 | pixel p is white exactly when it exists and has alpha > 200 and R, G, B ≥ 240 |
| SeedSearch.FindNearestWhite | src/features/mockup/components/MultiDeviceMockup.tsx:32-53 | a white click returns itself. Otherwise the result is None exactly when no white in-frame pixel lies within Manhattan distance maxR. A found seed is white, in the frame, within 1..maxR, and met first in ring order (nearer rings, then upper rows, then the left point) |
| FloodFill.Fill | src/features/mockup/components/MultiDeviceMockup.tsx:322-354 | visited is exactly the set of pixels 4-connected to the seed through white pixels. The box contains the seed and every visited pixel, and each of its four sides touches a visited pixel |
| FloodFill.TryPush | src/features/mockup/components/MultiDeviceMockup.tsx:338-348 | a neighbour that is in range, unvisited and white is marked and pushed. Nothing else changes, and every mark stays witnessed by a white path from the seed |
| FloodFill.PushNeighbours | src/features/mockup/components/MultiDeviceMockup.tsx:350-353 | after the four pushes the popped pixel is closed: each white in-range neighbour is visited |
| FloodFill.Expand | src/features/mockup/components/MultiDeviceMockup.tsx:329-354 | one pop-and-push step keeps the witness invariant and closes every settled pixel |
| FloodFill.FillRegion | src/features/mockup/components/MultiDeviceMockup.tsx:322-354 | a witnessed visited set with every settled pixel closed equals the region reachable from the seed |
| FloodFill.SettledAllInBox | src/features/mockup/components/MultiDeviceMockup.tsx:333-336 | when the stack is empty the tracked min/max values bound every visited pixel, and each is attained by one |
| FloodFill.BoxStep | src/features/mockup/components/MultiDeviceMockup.tsx:330-336 | widening the box by the popped pixel keeps the box covering every visited pixel |
| HoleFill.Complement | src/features/mockup/components/MultiDeviceMockup.tsx:377 | the cells the border flood may enter are exactly those whose base-mask flag is 0 |
| HoleFill.Crop | src/features/mockup/components/MultiDeviceMockup.tsx:362-368 | the base mask has rw × rh cells |
| HoleFill.CropCell | src/features/mockup/components/MultiDeviceMockup.tsx:365-366 | base cell (i, j) is the visited flag of frame pixel (rx + i, ry + j) |
| HoleFill.BuildBaseMask | src/features/mockup/components/MultiDeviceMockup.tsx:362-368 | the loop-built base mask equals the crop of the visited flags |
| HoleFill.CopyRow | src/features/mockup/components/MultiDeviceMockup.tsx:364-367 | one row of the copy extends the correct prefix by one row |
| HoleFill.EnqueueIf | src/features/mockup/components/MultiDeviceMockup.tsx:373-381 | an in-range, unseen, non-mask border cell is marked and queued. Otherwise nothing changes |
| HoleFill.SeedRows | src/features/mockup/components/MultiDeviceMockup.tsx:383 | after the row loop every cell of the top and bottom rows is covered |
| HoleFill.SeedColumns | src/features/mockup/components/MultiDeviceMockup.tsx:384 | after the column loop every border cell is covered |
| HoleFill.PushAround | src/features/mockup/components/MultiDeviceMockup.tsx:390-399 | after the four pushes the dequeued cell is closed among non-mask cells |
| HoleFill.ExpandCell | src/features/mockup/components/MultiDeviceMockup.tsx:386-400 | one shift-and-push step keeps the invariant |
| HoleFill.FloodFromBorder | src/features/mockup/components/MultiDeviceMockup.tsx:370-400 | seen is exactly the set of non-mask cells reachable from the box border through non-mask cells |
| HoleFill.Classify | src/features/mockup/components/MultiDeviceMockup.tsx:402-421 | the final and dark masks equal the source's per-cell classification |
| HoleFill.ClassifyRow | src/features/mockup/components/MultiDeviceMockup.tsx:405-420 | one row of the classification extends both correct prefixes |
| Segmentation.Extent | src/features/mockup/components/MultiDeviceMockup.tsx:358-359 | `Math.max(1, hi - lo + 1)` is at least 1 and is the span when lo ≤ hi |
| Segmentation.Segment | src/features/mockup/components/MultiDeviceMockup.tsx:315-421 | the seed is chosen as `findNearestWhite` chooses it. A region exists exactly when a seed does, and it is the box, final mask and dark mask of that seed's white region |
| Segmentation.MaskIsWhite | src/features/mockup/components/MultiDeviceMockup.tsx:402-421 | every final-mask cell is a white frame pixel. Every dark cell is non-white, has alpha > 0 and lies outside the seed's region, so the two masks are disjoint |
| Segmentation.MaskCoversSeedRegion | src/features/mockup/components/MultiDeviceMockup.tsx:362-407 | the final mask contains the whole flood region, so finalMask ⊇ baseMask |
| Segmentation.BorderCellsNotHoles | src/features/mockup/components/MultiDeviceMockup.tsx:383-416 | on the box border the final mask is exactly the flood region and no cell is dark |
| Segmentation.CropCovers | src/features/mockup/components/MultiDeviceMockup.tsx:362-368 | a region pixel inside the box is set in the cropped base mask |
| Segmentation.RectOfRoundTrip | src/features/mockup/components/MultiDeviceMockup.tsx:458-463 | the percentage rectangle times the frame size gives back the box, and a box inside the frame gives fractions in [0, 1] |
| MaskRaster.MaskRgba | src/features/mockup/components/MultiDeviceMockup.tsx:247-254 | the mask image has four bytes per cell |
| MaskRaster.MaskRgbaRoundTrip | src/features/mockup/components/MultiDeviceMockup.tsx:247-254 | reading the mask back from the image gives the mask. Each pixel is opaque and grey, either 255 or 0 |
| MaskRaster.MaskToRgba | src/features/mockup/components/MultiDeviceMockup.tsx:240-254 | the loop-filled buffer equals the mask image |
| MaskRaster.MaskRow | src/features/mockup/components/MultiDeviceMockup.tsx:248-253 | one row extends the correct prefix |
| MaskRaster.DarkRgba | src/features/mockup/components/MultiDeviceMockup.tsx:438-452 | the dark overlay has four bytes per cell |
| MaskRaster.DarkOverlay | src/features/mockup/components/MultiDeviceMockup.tsx:438-452 | the loop-filled buffer equals the dark overlay |
| MaskRaster.DarkRow | src/features/mockup/components/MultiDeviceMockup.tsx:441-451 | one row extends the correct prefix and leaves the rest at 0 |
| MaskRaster.DarkOverlayOfSegment | src/features/mockup/components/MinimalMockup.tsx:368-381 | a cell of the segment's dark overlay is visible exactly when it is dark. Every other cell stays all zero |
| MaskRaster.DarkAlpha | src/features/mockup/components/MultiDeviceMockup.tsx:443-449 | where the copied pixels have alpha > 0, overlay alpha > 0 exactly on dark cells, and other cells stay zero |
| MaskRaster.Painted | src/features/mockup/components/MultiDeviceMockup.tsx:223-234 | painting keeps the buffer length |
| MaskRaster.PaintedPixel | src/features/mockup/components/MultiDeviceMockup.tsx:226-231 | a masked pixel gets the opaque fill colour and any other byte is unchanged |
| MaskRaster.PaintedIdempotent | src/features/mockup/components/MultiDeviceMockup.tsx:223-234 | painting the same mask twice is the same as painting it once |
| MaskRaster.PaintMask | src/features/mockup/components/MultiDeviceMockup.tsx:223-234 | the in-place loop leaves the buffer painted |
| MaskRaster.PaintRow | src/features/mockup/components/MultiDeviceMockup.tsx:224-233 | one row extends the painted prefix and leaves the rest as it was |
| MaskRaster.GetImageData | src/features/mockup/components/MultiDeviceMockup.tsx:212 | the read rectangle has rw × rh pixels |
| MaskRaster.GetPixel | src/features/mockup/components/MultiDeviceMockup.tsx:212 | a read pixel is the canvas pixel, or transparent outside the canvas |
| MaskRaster.PutImageData | src/features/mockup/components/MultiDeviceMockup.tsx:235 | writing back keeps the canvas size |
| MaskRaster.PutPixel | src/features/mockup/components/MultiDeviceMockup.tsx:235 | a canvas pixel inside the written rectangle takes the written value. Any other pixel is unchanged |
| MaskRaster.DrawMaskIntoOverlay | src/features/mockup/components/MultiDeviceMockup.tsx:208-236 | each canvas pixel under a set mask cell becomes the opaque fill colour, and every other pixel is unchanged |
| MaskRaster.PaintOnCanvas | src/features/mockup/components/MinimalMockup.tsx:175-189 | read, paint and write back changes exactly the pixels under the mask |
| MaskRaster.HexDigit | src/features/mockup/components/MultiDeviceMockup.tsx:218 | a hex digit has a value below 16 |
| MaskRaster.HexPrefix | src/features/mockup/components/MultiDeviceMockup.tsx:218 | `parseInt` reads the longest leading run of hex digits |
| MaskRaster.ParseHex | src/features/mockup/components/MultiDeviceMockup.tsx:218 | a non-empty all-hex string parses to its base-16 value |
| MaskRaster.HexConcat | src/features/mockup/components/MultiDeviceMockup.tsx:218 | the value of a + b is value(a) × 16^|b| + value(b) |
| MaskRaster.HexPair | src/features/mockup/components/MultiDeviceMockup.tsx:219-221 | two hex digits make one byte |
| MaskRaster.UnpackBytes | src/features/mockup/components/MultiDeviceMockup.tsx:219-221 | the shifts and masks give back R, G and B from the packed colour |
| MaskRaster.FillRgbOfHexColor | src/features/mockup/components/MultiDeviceMockup.tsx:218-221 | "#RRGGBB" yields the three byte pairs |
| MaskRaster.SlotTints | src/constants/deviceColors.ts:6-16 | the three slot colours paint as (E5, C4, BE), (AC, CB, DE) and (FF, E2, C6) |
| MultiDevice.SupportedAspectsAreRatios | src/features/mockup/components/MultiDeviceMockup.tsx:8-25 | the offered aspects are the ratios written "a:b" |
| MultiDevice.AspectToCssSlashes | src/features/mockup/components/MultiDeviceMockup.tsx:8-25 | every offered "a:b" becomes "a / b" |
| MultiDevice.AspectToCssFallback | src/features/mockup/components/MultiDeviceMockup.tsx:22-23 | any other value becomes "1 / 1" |
| MultiDevice.ClearedAll | src/features/mockup/components/MultiDeviceMockup.tsx:476-495 | every slot is cleared and the slot count is kept |
| MultiDevice.TopHit | src/features/mockup/components/MultiDeviceMockup.tsx:268-283 | the highest-index slot whose rectangle contains the click, or None when no slot does |
| MultiDevice.FirstInactive | src/features/mockup/components/MultiDeviceMockup.tsx:309 | the lowest inactive slot, or None exactly when all are active |
| MultiDevice.Transparent | src/features/mockup/components/MultiDeviceMockup.tsx:207 | a cleared canvas is all zero |
| MultiDevice.PaintRegion | src/features/mockup/components/MultiDeviceMockup.tsx:222-235 | painting a kept region keeps the canvas size |
| MultiDevice.OverlayOf | src/features/mockup/components/MultiDeviceMockup.tsx:201-238 | the overlay has the frame's size |
| MultiDevice.TopCover | src/features/mockup/components/MultiDeviceMockup.tsx:209-236 | the last-painted slot covering a pixel, or None when no slot does |
| MultiDevice.OverlayPixel | src/features/mockup/components/MultiDeviceMockup.tsx:201-238 | an overlay pixel has the colour of the last slot whose mask covers it, or is transparent |
| MultiDevice.OverlayStep | src/features/mockup/components/MultiDeviceMockup.tsx:209-236 | painting slot n − 1 changes only the pixels its mask covers |
| MultiDevice.SegmentShape | src/features/mockup/components/MultiDeviceMockup.tsx:402-403 | a segmented region's masks are rw × rh |
| MultiDevice.ResetAll | src/features/mockup/components/MultiDeviceMockup.tsx:188-195 | the frame-load reset applies to every slot |
| MultiDevice.ResetAfterClear | src/features/mockup/components/MultiDeviceMockup.tsx:188-195 | after clearing, the load reset changes nothing. No slot is active or has a rectangle |
| MultiDevice.MultiDeviceMockup.constructor | src/features/mockup/components/MultiDeviceMockup.tsx:85-102 | three empty slots with their own colours, no frame, nothing active |
| MultiDevice.MultiDeviceMockup.DrawMasksIntoOverlay | src/features/mockup/components/MultiDeviceMockup.tsx:201-238 | the overlay becomes every kept mask painted in slot order |
| MultiDevice.MultiDeviceMockup.SelectFrame | src/features/mockup/components/MultiDeviceMockup.tsx:159-199 | the new frame is kept, every slot cleared, the masks forgotten, and nothing is active |
| MultiDevice.MultiDeviceMockup.FindDeviceIndexByPosition | src/features/mockup/components/MultiDeviceMockup.tsx:268-283 | the result is the top hit, checked from the highest index down |
| MultiDevice.MultiDeviceMockup.OnOverlayClick | src/features/mockup/components/MultiDeviceMockup.tsx:285-474 | a hit only switches the active slot. With all slots full, or no white pixel nearby, nothing changes. Otherwise the first free slot, and only it, receives the segment of the chosen seed |
| MultiDevice.MultiDeviceMockup.StoreRegion | src/features/mockup/components/MultiDeviceMockup.tsx:424-472 | only slot k changes: it takes the detected region's rect, mask images and dark overlay. Its mask is kept under k, and it becomes the active slot |
| MultiDevice.MultiDeviceMockup.ClearDevice | src/features/mockup/components/MultiDeviceMockup.tsx:497-506 | only slot idx is cleared and its mask forgotten. Nothing else changes |
| MultiDevice.MultiDeviceMockup.ClearOverlay | src/features/mockup/components/MultiDeviceMockup.tsx:476-495 | every slot is cleared, the masks are forgotten and nothing is active |
| Minimal.AspectToCssAgrees | src/features/mockup/components/MinimalMockup.tsx:7-17 | the single-slot mapping agrees with the multi-slot one except on 4:5, 3:4 and 8:9, which it maps to "1 / 1" |
| Minimal.ActiveRect | src/features/mockup/components/MinimalMockup.tsx:124-128 | the custom rect if present, else the frame's screen rect, else the 80 % default. None exactly when there is neither a custom rect nor a frame |
| Minimal.DefaultRectCentred | src/features/mockup/components/MinimalMockup.tsx:127 | the default rect lies inside the frame and is centred |
| Minimal.TintIsFirstSlotColour | src/features/mockup/components/MinimalMockup.tsx:182-185 | the fixed tint is the first slot's colour |
| Minimal.Shown | src/features/mockup/components/MinimalMockup.tsx:346-353 | the overlay has the frame's size |
| Minimal.ShownPixel | src/features/mockup/components/MinimalMockup.tsx:170-190 | an overlay pixel is the tint under the last mask and transparent elsewhere |
| Minimal.MinimalMockup.constructor | src/features/mockup/components/MinimalMockup.tsx:49-80 | nothing is selected, loaded or detected |
| Minimal.MinimalMockup.ClearOverlay | src/features/mockup/components/MinimalMockup.tsx:399-411 | the detection and its images are dropped and the frame is kept |
| Minimal.MinimalMockup.SelectFrame | src/features/mockup/components/MinimalMockup.tsx:131-168 | the frame is kept, the detection is dropped, the active rect falls back to the frame's own, and the overlay is cleared |
| Minimal.MinimalMockup.OnOverlayClick | src/features/mockup/components/MinimalMockup.tsx:221-397 | without a frame or a white pixel nearby nothing changes. Otherwise the segment of the chosen seed becomes the custom rect and the last mask |
| Minimal.MinimalMockup.StoreRegion | src/features/mockup/components/MinimalMockup.tsx:346-396 | the last mask and the custom rect become the new region's |
| DeviceColors.GetDeviceColor | src/constants/deviceColors.ts:23-25 | the colour is an entry of the colour order |
| DeviceColors.IndexOf | src/constants/deviceColors.ts:30-33 | `indexOf`: the first position holding c, or −1 exactly when c is absent |
| DeviceColors.GetDeviceIndexFromColor | src/constants/deviceColors.ts:30-34 | None exactly for colours outside the table. Otherwise an index holding that colour |
| DeviceColors.ColorsDistinct | src/constants/deviceColors.ts:6-16 | the three colours differ pairwise |
| DeviceColors.ColorRoundTrip | src/constants/deviceColors.ts:23-34 | colour to index gives back the slot index |
| Fit.ContainSize | src/features/mockup/utils/fit.ts:1-13 | fits inside the container with one side equal. Keeps the aspect ratio and is centred with non-negative offsets |
| Fit.CoverSize | src/features/mockup/utils/fit.ts:15-31 | covers the target with one side equal and keeps the aspect ratio. A wider image has top 0 and left ≤ 0, otherwise left is 0 and top ≤ 0, and both are centred |
| Fit.SameShapeIsIdentity | src/features/mockup/utils/fit.ts:1-31 | with equal aspect ratios both return the box itself at (0, 0) |
| DeviceFeatures.TonesPartition | src/features/mockup/utils/deviceTypeDetection.ts:250-259 | black, mid-tone and white counts add up to the pixels of the window |
| DeviceFeatures.ScanRowTones | src/features/mockup/utils/deviceTypeDetection.ts:244-260 | the inner loop's three counts and pixel count are the row's counting definitions |
| DeviceFeatures.ScanFrameBand | src/features/mockup/utils/deviceTypeDetection.ts:239-270 | the band scan gathers exactly the band's tally and the dominant-row flag |
| DeviceFeatures.DetectKeyboardFromFrame | src/features/mockup/utils/deviceTypeDetection.ts:195-318 | the result is the intended verdict: false below a 10-row band, else the thresholds over the band |
| DeviceFeatures.KeyboardBelowScreenWhenScanned | src/features/mockup/utils/deviceTypeDetection.ts:203-282 | a keyboard is reported exactly when the band is at least 10 rows high and its scan window has rows and x0 ≠ x1 |
| DeviceFeatures.FrameVerdictWhenScanned | src/features/mockup/utils/deviceTypeDetection.ts:262-282 | the thresholds pass exactly when the window has rows and x0 ≠ x1, because the three tone ratios of a non-empty window add up to 1 |
| DeviceFeatures.KeyboardFromFrameAsWritten | src/features/mockup/utils/deviceTypeDetection.ts:195-226 | the code as written never returns true |
| DeviceFeatures.AsWrittenThrowsWhereKeyboardFound | src/features/mockup/utils/deviceTypeDetection.ts:216-226 | wherever the intended logic finds a keyboard, the code as written throws a ReferenceError |
| DeviceFeatures.AsWrittenThrowsOnTopHalfScreen | src/features/mockup/utils/deviceTypeDetection.ts:216-226 | a 100 × 100 frame with its screen in the top half: the intended logic finds a keyboard and the code as written throws |
| DeviceFeatures.ScanRowEdges | src/features/mockup/utils/deviceTypeDetection.ts:367-403 | a row's tone counts and luminance jumps over 30 are the row's counting definitions |
| DeviceFeatures.MaskTallyStep | src/features/mockup/utils/deviceTypeDetection.ts:367-419 | adding a row adds its counts, its dominance and its edge row |
| DeviceFeatures.ScanMaskBand | src/features/mockup/utils/deviceTypeDetection.ts:350-436 | one band's scan gathers exactly its tally |
| DeviceFeatures.DetectKeyboard | src/features/mockup/utils/deviceTypeDetection.ts:326-477 | true exactly when some band (bottom 20 %, 30 %, 40 %) has black ≥ 40 %, mid-tone ≥ 40 %, a row with one tone > 40 %, or more than 3 edge rows |
| DeviceFeatures.MaskBandsNested | src/features/mockup/utils/deviceTypeDetection.ts:335-351 | the bands are nested and all end at the bottom row |
| DeviceFeatures.ScanBorderRow | src/features/mockup/utils/deviceTypeDetection.ts:493-519 | a row's border and metal pixel counts |
| DeviceFeatures.DetectMetalSide | src/features/mockup/utils/deviceTypeDetection.ts:483-535 | true exactly when more than 10 % of the border band is grey metal (luminance 102..178, saturation < 0.2) |
| DeviceFeatures.NoMetalSideWithoutBorder | src/features/mockup/utils/deviceTypeDetection.ts:487-524 | an image under 20 pixels on its short side has an empty band and no metal side |
| DeviceFeatures.MetalSideHasMetal | src/features/mockup/utils/deviceTypeDetection.ts:512-524 | a metal side means at least one metal pixel, and no more of them than the band has pixels |
| DeviceFeatures.BlackCutoutMeans | src/features/mockup/utils/deviceTypeDetection.ts:540-620 | a cutout is reported exactly for an elongated mask whose top-centre window is over 3 % black and has 3 consecutive rows each over 20 % black |
| DeviceFeatures.NoCutoutUnlessElongated | src/features/mockup/utils/deviceTypeDetection.ts:548-553 | for 0.56 ≤ aspect ≤ 1.78 there is no cutout |
| DeviceFeatures.ScanDarkRow | src/features/mockup/utils/deviceTypeDetection.ts:573-585 | a row's dark-pixel count and pixel count |
| DeviceFeatures.DetectBlackCutout | src/features/mockup/utils/deviceTypeDetection.ts:540-620 | the loop's verdict is the cutout definition |
| DeviceFeatures.DarkNeedsWindow | src/features/mockup/utils/deviceTypeDetection.ts:639-651 | a dark pixel found means a non-empty window |
| DeviceFeatures.NotchWindowNeedsPixels | src/features/mockup/utils/deviceTypeDetection.ts:630-633 | a non-empty notch window means a non-empty image |
| DeviceFeatures.NotchCentroid | src/features/mockup/utils/deviceTypeDetection.ts:626-660 | None exactly when the central window has no dark pixel |
| DeviceFeatures.ScanNotchRow | src/features/mockup/utils/deviceTypeDetection.ts:640-650 | a row's dark count and x-sum |
| DeviceFeatures.DetectNotchPosition | src/features/mockup/utils/deviceTypeDetection.ts:626-660 | the loop's result is the centroid of the dark pixels in the window |
| DeviceFeatures.NotchInWindow | src/features/mockup/utils/deviceTypeDetection.ts:630-658 | the centroid lies in the scanned window and below 0.75 on both axes |
| DeviceFeatures.NotchAwayFromEdges | src/features/mockup/utils/deviceTypeDetection.ts:689-699 | for images of at least 20 pixels, x is in [0.2, 0.8] and y ≥ 0.2, so the edge branches of the direction rule never fire |
| DeviceTypeDetection.DetectDeviceType | src/features/mockup/utils/deviceTypeDetection.ts:62-109 | a keyboard means laptop. Smartphone exactly with no keyboard, a cutout and an elongated aspect. Tablet exactly with neither feature. Never unknown |
| DeviceTypeDetection.MetalSideIgnored | src/features/mockup/utils/deviceTypeDetection.ts:62-109 | the metal-side flag never changes the decision |
| DeviceTypeDetection.AspectRange | src/features/mockup/utils/deviceTypeDetection.ts:23-51 | each type's aspect range is a proper positive interval |
| DeviceTypeDetection.Clamp | src/features/mockup/utils/deviceTypeDetection.ts:169 | the confidence is clamped to [0, 100] and unchanged inside it |
| DeviceTypeDetection.Confidence | src/features/mockup/utils/deviceTypeDetection.ts:145-169 | in [0, 100], 50 for unknown, and NaN (None) exactly for a 0 × 0 region of a known type |
| DeviceTypeDetection.BoostsMatchType | src/features/mockup/utils/deviceTypeDetection.ts:159-167 | each boost applies only to its own type and flag |
| DeviceTypeDetection.FeatureNeverLowers | src/features/mockup/utils/deviceTypeDetection.ts:159-169 | a matching feature never lowers the confidence |
| DeviceTypeDetection.CentredScreenScores80 | src/features/mockup/utils/deviceTypeDetection.ts:145-157 | an aspect at the centre of the type's range scores 80 without features |
| DeviceTypeDetection.DetectDeviceTypeFromRegion | src/features/mockup/utils/deviceTypeDetection.ts:114-181 | the features come from the mask and frame detectors (the frame first for the keyboard), and type and confidence come from the deciders |
| DeviceTypeDetection.VerticalDirection | src/features/mockup/utils/deviceTypeDetection.ts:670-733 | up for every non-smartphone. Without a notch a smartphone is up exactly when aspect < 1, otherwise right |
| DeviceTypeDetection.DetectDeviceVerticalDirection | src/features/mockup/utils/deviceTypeDetection.ts:670-733 | the direction uses the mask's notch centroid only for smartphones |
| DeviceTypeDetection.NotchDirectionIsAngle | src/features/mockup/utils/deviceTypeDetection.ts:689-712 | for a mask of at least 20 × 20 with a notch, the direction is the angle bucket |
| DeviceTypeDetection.Rotation | src/features/mockup/utils/deviceTypeDetection.ts:773-814 | the rotation is 0, 45 or 90, and 0 without an image. It is 45 exactly for a diagonal direction and an image ratio below 0.9 |
| DeviceTypeDetection.DetermineDeviceOrientation | src/features/mockup/utils/deviceTypeDetection.ts:744-815 | the rotation of the detected direction, in {0, 45, 90}, and 0 without an image |
| DeviceTypeDetection.UprightDevicesNeverTilt | src/features/mockup/utils/deviceTypeDetection.ts:680-731 | laptops and tablets are never turned 45 degrees |
| DeviceTypeDetection.BleedOrder | src/features/mockup/utils/deviceTypeDetection.ts:833-840 | smartphone = unknown < tablet < laptop, all within 5..12 |
| DeviceTypeDetection.DisplayNamesDistinct | src/features/mockup/utils/deviceTypeDetection.ts:820-828 | different types have different display names |
| DeviceTypeAnalyzer.Max3 | src/utils/deviceTypeAnalyzer.ts:213 | the maximum of three scores |
| DeviceTypeAnalyzer.AnalyzerOrientation | src/utils/deviceTypeAnalyzer.ts:77-90 | portrait exactly when aspect < 0.95, landscape exactly when aspect > 1.05 |
| DeviceTypeAnalyzer.OrientationsAgreeUnlessNaN | src/utils/deviceTypeAnalyzer.ts:77-90 | agrees with `getOrientation` except at 0 / 0, where one says square and the other landscape |
| DeviceTypeAnalyzer.ScoresPositive | src/utils/deviceTypeAnalyzer.ts:113-197 | scores are non-negative and some score is positive |
| DeviceTypeAnalyzer.PointsInRange | src/utils/deviceTypeAnalyzer.ts:132-197 | the aspect, size and width points stay within their tables |
| DeviceTypeAnalyzer.Decide | src/utils/deviceTypeAnalyzer.ts:212-232 | unknown exactly when the maximum is 0. Ties are broken laptop, then smartphone, then tablet |
| DeviceTypeAnalyzer.ReportedScores | src/utils/deviceTypeAnalyzer.ts:266-282 | the reported sub-scores come from their tables, and the total is the maximum |
| DeviceTypeAnalyzer.Analyze | src/utils/deviceTypeAnalyzer.ts:33-286 | a null rect gives unknown, confidence 0 and zero scores. Confidence is in [0, 1], and the orientation is that of the rect's aspect |
| DeviceTypeAnalyzer.ScoreDevice | src/utils/deviceTypeAnalyzer.ts:113-197 | the `+=` sequence equals the scoring definition |
| DeviceTypeAnalyzer.AddAspectPoints | src/utils/deviceTypeAnalyzer.ts:132-156 | adds the aspect points |
| DeviceTypeAnalyzer.AddSizePoints | src/utils/deviceTypeAnalyzer.ts:159-180 | adds the size points |
| DeviceTypeAnalyzer.AddWidthPoints | src/utils/deviceTypeAnalyzer.ts:185-196 | adds the width points |
| DeviceTypeAnalyzer.AnalyzeDeviceType | src/utils/deviceTypeAnalyzer.ts:33-286 | the method's result equals the analysis definition |
| DeviceTypeAnalyzer.KeyboardMeansLaptop | src/utils/deviceTypeAnalyzer.ts:93-124 | a given or inferred keyboard gives laptop with confidence 1 |
| DeviceTypeAnalyzer.NotchMeansSmartphone | src/utils/deviceTypeAnalyzer.ts:105-130 | a notch without a keyboard gives smartphone with confidence 1 |
| DeviceTypeAnalyzer.RectNeverUnknown | src/utils/deviceTypeAnalyzer.ts:113-232 | with a rect the type is never unknown |
| DeviceTypeAnalyzer.FeaturelessScoresBounded | src/utils/deviceTypeAnalyzer.ts:132-197 | without features the scores stay at or below 105, 95 and 75 |
| DeviceTypeAnalyzer.AnalysisFollowsScores | src/utils/deviceTypeAnalyzer.ts:93-256 | the type is the decision over the inferred scores, and the confidence is its share capped at 1 |
| DeviceTypeAnalyzer.ConfidenceCapReached | src/utils/deviceTypeAnalyzer.ts:134-256 | a wide, mid-area screen scores 105 and its confidence is capped to 1 |
| DeviceTypeAnalyzer.CapScreenExists | src/utils/deviceTypeAnalyzer.ts:134-186 | a 60 % × 35 % screen meets those conditions |
| DeviceTypeAnalyzer.SeqMin | src/utils/deviceTypeAnalyzer.ts:308-321 | the least coordinate |
| DeviceTypeAnalyzer.SeqMax | src/utils/deviceTypeAnalyzer.ts:308-326 | the greatest coordinate |
| DeviceTypeAnalyzer.Spread | src/utils/deviceTypeAnalyzer.ts:318-326 | a spread is non-negative |
| DeviceTypeAnalyzer.Xs | src/utils/deviceTypeAnalyzer.ts:313-315 | each region's x, or 0 without a rect |
| DeviceTypeAnalyzer.Ys | src/utils/deviceTypeAnalyzer.ts:308-310 | each region's y, or 0 without a rect |
| DeviceTypeAnalyzer.SortedSpread | src/utils/deviceTypeAnalyzer.ts:308-326 | last minus first of the sorted copy is the spread |
| DeviceTypeAnalyzer.ExtremesSameValues | src/utils/deviceTypeAnalyzer.ts:308-326 | the extremes depend only on the set of values |
| DeviceTypeAnalyzer.CoordsFollowRegions | src/utils/deviceTypeAnalyzer.ts:308-315 | reordered regions have the same coordinates |
| DeviceTypeAnalyzer.Layout | src/utils/deviceTypeAnalyzer.ts:291-336 | one line for 0 or 1 regions. Otherwise the count line and one arrangement line |
| DeviceTypeAnalyzer.LayoutOrderFree | src/utils/deviceTypeAnalyzer.ts:291-336 | the layout does not depend on the order of the regions |
| DeviceTypeAnalyzer.StackedInPlaceIsGrid | src/utils/deviceTypeAnalyzer.ts:328-334 | devices stacked at one spot read as diagonal or grid |
| DeviceTypeAnalyzer.AllEqualSpread | src/utils/deviceTypeAnalyzer.ts:318-326 | equal coordinates have spread 0 |
| DeviceTypeAnalyzer.AnalyzeDeviceLayout | src/utils/deviceTypeAnalyzer.ts:291-336 | the method's lines equal the layout definition |
| DeviceTypeAnalyzer.Extremes | src/utils/deviceTypeAnalyzer.ts:308-326 | the one-pass loop finds the least and greatest coordinate |
| ShapeDetector.ClampUnit | src/utils/shapeDetector.ts:47-50 | the cosine is clamped to [−1, 1] and unchanged inside it |
| ShapeDetector.CalculateAngle | src/utils/shapeDetector.ts:29-51 | 0 when a vector has zero length, otherwise acos of a value in [−1, 1] |
| ShapeDetector.RightAngle | src/utils/shapeDetector.ts:29-51 | perpendicular vectors give acos(0) |
| ShapeDetector.AngleInRange | src/utils/shapeDetector.ts:29-51 | the angle lies in [0, 180] |
| ShapeDetector.Classify | src/utils/shapeDetector.ts:58-108 | rectangle, parallelogram, trapezoid and irregular, each exactly under its rule in priority order |
| ShapeDetector.ShapesHaveTheirSignature | src/utils/shapeDetector.ts:91-107 | a parallelogram does not have four near-right angles, and a trapezoid has an opposite-side difference over 0.1 |
| ShapeDetector.ClassifyTurnInvariant | src/utils/shapeDetector.ts:58-108 | starting from the next corner does not change the class |
| ShapeDetector.BoundariesAreIrregular | src/utils/shapeDetector.ts:77-107 | a difference of exactly 0.1, or zero-length sides, reads as irregular |
| ShapeDetector.TrueRectangleDetected | src/utils/shapeDetector.ts:77-88 | a true rectangle is detected as one |
| ShapeDetector.AnalyzeShape | src/utils/shapeDetector.ts:124-175 | the pattern is `detectShapePattern` on the same corners, with its sides, differences and description |
| ShapeDetector.ShapeScoreModifiers | src/utils/shapeDetector.ts:180-211 | (1, 1, 1) exactly for rectangle or irregular, otherwise (1.2, 0.5, 1.2) |
| ShapeDetector.ModifiersFavourLargeDevices | src/utils/shapeDetector.ts:180-211 | no modifier favours smartphones, and laptops and tablets are treated alike |
| DeviceOrientation.GetOrientation | src/features/mockup/utils/deviceOrientation.ts:12-23 | square exactly within [0.95, 1.05], portrait below, landscape above or for 0 / 0 |
| DeviceOrientation.PositiveOrientation | src/features/mockup/utils/deviceOrientation.ts:12-23 | for positive sides the tests are cross-multiplications |
| DeviceOrientation.PortraitTurnsLandscape | src/features/mockup/utils/deviceOrientation.ts:12-23 | a portrait shape turned a quarter turn is landscape |
| DeviceOrientation.LandscapeMayTurnSquare | src/features/mockup/utils/deviceOrientation.ts:12-23 | the band is asymmetric: 1.051 : 1 is landscape but 1 : 1.051 is square |
| DeviceOrientation.GetDeviceAngle | src/features/mockup/utils/deviceOrientation.ts:31-42 | 90 exactly for a landscape rectangle, otherwise 0 |
| DeviceOrientation.IsOrientationMatched | src/features/mockup/utils/deviceOrientation.ts:47-62 | a mismatch is exactly one portrait side and one landscape side |
| DeviceOrientation.MatchSymmetric | src/features/mockup/utils/deviceOrientation.ts:47-62 | matching is symmetric in image and region |
| DeviceOrientation.RadiusFactor | src/features/mockup/utils/deviceOrientation.ts:68-86 | one of 8, 5, 3 or 2 %: 8 % for any category containing "phone", 3 % without a category |
| DeviceOrientation.CornerRadius | src/features/mockup/utils/deviceOrientation.ts:68-86 | between 2 % and 8 % of the shorter side |
| DeviceOrientation.RadiusOrder | src/features/mockup/utils/deviceOrientation.ts:68-86 | laptop = desktop < other < tablet < smartphone |
| DeviceOrientation.Round | src/features/mockup/utils/deviceOrientation.ts:105-151 | `Math.round` is within half a unit |
| DeviceOrientation.GenerateDeviceDebugInfo | src/features/mockup/utils/deviceOrientation.ts:105-151 | the region size and radius are rounded and the angle comes from the rect. The image fields are present exactly with a natural size |
| DeviceOrientation.AngleIgnoresContainer | src/features/mockup/utils/deviceOrientation.ts:105-151 | a landscape region can be drawn at 0 degrees, because the angle ignores the container |
| DebugAnalysis.BaseBleed | src/features/mockup/utils/debugAnalysis.ts:173 | the base bleed is 10, 7 or 5 |
| DebugAnalysis.Ceil | src/features/mockup/utils/debugAnalysis.ts:176 | `Math.ceil` |
| DebugAnalysis.Max4 | src/features/mockup/utils/debugAnalysis.ts:168 | the largest margin |
| DebugAnalysis.ScanRow | src/features/mockup/utils/debugAnalysis.ts:89-104 | a row's edge and white counts |
| DebugAnalysis.ScanColumn | src/features/mockup/utils/debugAnalysis.ts:127-140 | a column's edge and white counts |
| DebugAnalysis.ScanRows | src/features/mockup/utils/debugAnalysis.ts:88-123 | a band of rows' counts |
| DebugAnalysis.ScanColumns | src/features/mockup/utils/debugAnalysis.ts:126-159 | a band of columns' counts |
| DebugAnalysis.DetectWhiteMargins | src/features/mockup/utils/debugAnalysis.ts:51-202 | the method's result equals the margin definition |
| DebugAnalysis.SummarizeScans | src/features/mockup/utils/debugAnalysis.ts:161-201 | the summary of four side counts |
| DebugAnalysis.WhitesWithinEdges | src/features/mockup/utils/debugAnalysis.ts:87-162 | white = top + bottom + left + right ≤ edge pixels, and the ratio is in [0, 1] |
| DebugAnalysis.SummaryCounts | src/features/mockup/utils/debugAnalysis.ts:161-201 | the same for any side counts with whites ≤ edges |
| DebugAnalysis.WhiteInEdgeRows | src/features/mockup/utils/debugAnalysis.ts:88-123 | only edge pixels are counted as white |
| DebugAnalysis.WhiteInEdgeColumns | src/features/mockup/utils/debugAnalysis.ts:126-159 | only edge pixels are counted as white |
| DebugAnalysis.MarginIffOverOnePercent | src/features/mockup/utils/debugAnalysis.ts:161-162 | a margin exactly when over 1 % of edge pixels are white. The ratio is 0 without edge pixels |
| DebugAnalysis.EmptyCanvasScansNothing | src/features/mockup/utils/debugAnalysis.ts:88-159 | a 0 × 0 canvas scans nothing |
| DebugAnalysis.BleedAndAdvice | src/features/mockup/utils/debugAnalysis.ts:165-190 | no margin gives bleed 0 and no advice. A margin gives bleed above the base and 1 to 3 recommendations, the first being the bleed |
| DebugAnalysis.SummaryBleed | src/features/mockup/utils/debugAnalysis.ts:165-190 | the same for any side counts |
| DebugAnalysis.AdviceSteps | src/features/mockup/utils/debugAnalysis.ts:180-190 | the bleed advice, then the horizontal and vertical centring advice exactly when that side pair differs by more than twice |
| DebugAnalysis.EqualMarginsNeedNoCentring | src/features/mockup/utils/debugAnalysis.ts:184-189 | balanced margins need no centring |
| DebugAnalysis.CollectPixels | src/features/mockup/utils/debugAnalysis.ts:227-238 | the two lists are exactly the mask's screen pixels and notch pixels in row-major scan order |
| DebugAnalysis.CollectedPixels | src/features/mockup/utils/debugAnalysis.ts:227-238 | those lists hold every screen (notch) pixel of the mask once, in row-major order, and no other point; their lengths are the pixel counts |
| PixelScan.RowHitsSpec | src/features/mockup/utils/debugAnalysis.ts:229-236 | the points a row scan collects are exactly the row's passing pixels, left to right, as many as the row count |
| PixelScan.BandHitsSpec | src/features/mockup/utils/debugAnalysis.ts:228-237 | the points a row-by-row scan collects are exactly the window's passing pixels, in row-major order, as many as the window count |
| DebugAnalysis.CollectRow | src/features/mockup/utils/debugAnalysis.ts:228-237 | one row's lists are exactly its bright pixels and its dark (and not bright) pixels, left to right |
| DebugAnalysis.BrightAndDarkDisjoint | src/features/mockup/utils/debugAnalysis.ts:232-236 | no pixel is both bright and dark |
| DebugAnalysis.ShapeOf | src/features/mockup/utils/debugAnalysis.ts:280-283 | portrait exactly below 0.75, landscape exactly above 1.33 |
| DebugAnalysis.NormalizeAngle | src/features/mockup/utils/debugAnalysis.ts:264 | an angle in [−360, 360) lands in [0, 360), and non-negative angles are kept |
| DebugAnalysis.DeviceRotation | src/features/mockup/utils/debugAnalysis.ts:286-314 | 0, 90, 180 or 270 for portrait and landscape. Otherwise the rounded axis |
| DebugAnalysis.RecommendedRotation | src/features/mockup/utils/debugAnalysis.ts:317-336 | for a smartphone with over 100 dark pixels it is in {0, 90, 180, −90}, and 0 for a notch in (0, 90]. Otherwise it is −deviceRotation |
| DebugAnalysis.AnalyzeDeviceOrientation | src/features/mockup/utils/debugAnalysis.ts:207-357 | the verdict is the orientation rule applied to the mask size, the notch pixel count, and the axis and notch angles of the collected screen and notch pixel lists |
| DebugAnalysis.OneShape | src/features/mockup/utils/debugAnalysis.ts:280-314 | exactly one of portrait, landscape and diagonal, and a right-angle rotation for the first two |
| DebugAnalysis.NeverUpsideDown | src/features/mockup/utils/debugAnalysis.ts:260-310 | with an atan2 half-angle in [−90, 90] the rotation is never 180 |
| DebugAnalysis.RecommendationSources | src/features/mockup/utils/debugAnalysis.ts:317-336 | the recommendation comes from the device rotation or, for notched phones, from the notch alone |
| DebugAnalysis.NotchOnTheRight | src/features/mockup/utils/debugAnalysis.ts:328-331 | a notch angle of 0 or below asks for −90 |
| DeviceDebugger.AspectRatio | src/utils/deviceDebugger.ts:54-56 | 0 without a width, infinite for zero height, otherwise positive with value × height = width |
| DeviceDebugger.ElongationRatio | src/utils/deviceDebugger.ts:60 | the aspect or its reciprocal, whichever is ≥ 1, and infinite at 0 |
| DeviceDebugger.MissingWidthIsElongated | src/utils/deviceDebugger.ts:54-60 | a region without width counts as elongated, with infinite elongation |
| DeviceDebugger.ElongationOfTurnedShape | src/utils/deviceDebugger.ts:60 | the elongation is ≥ 1 and the same for a shape and its quarter turn |
| DeviceDebugger.ElongationTestAsymmetric | src/utils/deviceDebugger.ts:59 | 59 × 100 is elongated but 100 × 59 is not |
| DeviceDebugger.CollectIssues | src/utils/deviceDebugger.ts:65-76 | an issue is raised exactly for an index mismatch, a non-elongated smartphone or a smartphone with a keyboard, in that order |
| DeviceDebugger.IssuesAgreeWithValidation | src/utils/deviceDebugger.ts:65-76 | no issues exactly when the indices agree and a smartphone is elongated without a keyboard. For a smartphone this is the ≥ 70 % validation |
| DeviceDebugger.CollectDebugInfo | src/utils/deviceDebugger.ts:47-112 | every field: display number = index + 1, aspect, elongation, detection defaults, the issues, and a warning exactly for a laptop without a keyboard |
| DeviceDebugger.FirstSpace | src/utils/deviceDebugger.ts:200 | the first space of a string |
| DeviceDebugger.Split | src/utils/deviceDebugger.ts:200 | `split(' ')`: at least one word, none holding a space |
| DeviceDebugger.JoinSplit | src/utils/deviceDebugger.ts:200 | joining the split words with spaces gives back the text |
| DeviceDebugger.Cut | src/utils/deviceDebugger.ts:210-217 | the clamped `substring` index stays within the word |
| DeviceDebugger.WrapText | src/utils/deviceDebugger.ts:199-223 | with every word within the width every line is too. With no empty word as well, joining the lines gives back the text |
| DeviceDebugger.PlaceWord | src/utils/deviceDebugger.ts:204-220 | one word's step keeps the width bound and extends the joined text by that word |
| DeviceDebugger.ClampPercent | src/utils/deviceDebugger.ts:281 | clamped to [0, 100] and unchanged inside it |
| DeviceDebugger.AnalyzeSmartphoneDetection | src/utils/deviceDebugger.ts:228-283 | confidence is the clamped score, in [0, 100]. Valid exactly when elongated without a keyboard, with one reason per finding |
| DeviceDebugger.ScoreSeparatesVerdicts | src/utils/deviceDebugger.ts:240-276 | valid combinations score ≥ 70 and others ≤ 50, so the clamped score is ≥ 70 exactly for valid ones |
| DeviceDebugger.FeaturesMoveConfidence | src/utils/deviceDebugger.ts:240-281 | a notch never lowers the confidence, and a keyboard or a small area never raises it |
| JsNumber.QuotientComparisons | src/utils/deviceDebugger.ts:55-59 | comparing a JavaScript quotient (infinite or NaN at 0) with a threshold is the ratio test on the exact values |

## Left out

- Rendering and browser plumbing are not modelled. This covers JSX, hooks, resize listeners, object URLs, image decoding, `toDataURL`, and the canvas contexts beyond their pixel reads and writes.
- The blur feathering of the mask image is not modelled. It is a browser filter with floating-point output. The soft and hard masks are both the unblurred mask.
- The asynchronous compositing effects are not modelled, and neither is the network call that removes text from a frame.
- `perspectiveTransform.ts`, the debug panels, `debugVisualization.ts`, `formatDebugInfo`, `logDebugInfo` and all console output are not modelled. They are drawing, logging and timestamps.
- Frame fixtures (`frames.ts`) are not part of this model. Frame metadata is a datatype.
- `Math.sqrt`, `Math.acos` and `Math.atan2` are parameters. This covers the shape angles, the PCA axis and notch angle of the orientation analysis, and the diagonal branch of the direction rule.
- Numbers are exact reals or integers, not IEEE doubles. Division by zero is modelled through `JsNumber` where the source can reach it.
- MultiDevice.MultiDeviceMockup.OnOverlayClick: requires the click to lie inside the frame. A click exactly on the right or bottom canvas edge reads past the row and is not modelled.
- Minimal.MinimalMockup.OnOverlayClick: the same requirement on the click.
- Fit.ContainSize: requires positive sizes. The source divides by the natural height, giving NaN for a zero height.
- Fit.CoverSize: requires positive sizes, for the same reason.
- DeviceDebugger.WrapText: states the width bound only when no word is longer than the width. It states the round trip only when, in addition, no word is empty. A leading, trailing or doubled space makes an empty word. In the middle of a line the source keeps it as an extra space, but it drops it when the current line is empty: at the start of the text or right after a line break. So such a text does not always come back.
- DeviceDebugger.CollectDebugInfo: issue and warning texts are datatype constructors, not the formatted strings. A NaN confidence from detection is not modelled.
- DeviceDebugger.AnalyzeSmartphoneDetection: the reasons are constructors, not the formatted strings.
- DeviceTypeAnalyzer.Analyze: the step log, the factor list and the primary reason text are not modelled. The layout lines are constructors, and the sorts are modelled by minimum and maximum.
- DebugAnalysis.AnalyzeDeviceOrientation: the centroid, the PCA and `atan2` are parameters: functions that the method applies to the collected screen and notch pixel lists.
- DeviceTypeDetection.DetectDeviceTypeFromRegion: the container size is a parameter, and the canvas reads are images passed in. With a frame, the keyboard flag comes from the corrected frame detector of the Findings row. The source as written throws a ReferenceError out of this function wherever that band is at least 10 rows high.

## Findings

| source | as written | input that shows it | evidently intended | confidence | as-written member | corrected member |
|---|---|---|---|---|---|---|
| src/features/mockup/utils/deviceTypeDetection.ts:216-226 | the debug log reads `checkStartY` and `checkEndY` before their `const` declarations at 225-226. Once the 10-row check passes, the function throws a ReferenceError and never returns true | a 100 × 100 frame with screen rect (0, 0, 1, 0.5): the band is rows 50-70, so the check passes | declare the band before logging it, then apply the thresholds of lines 239-282 | not executed | DeviceFeatures.AsWrittenThrowsOnTopHalfScreen | DeviceFeatures.KeyboardBelowScreenWhenScanned |
