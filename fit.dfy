/** Placing an image in a box: scaled to fit inside it (contain) or to cover
    it (cover), keeping the image's aspect ratio and centring it. */
module Fit {
  /** Size and top-left offset of the placed image, in box units. */
  datatype Placement = Placement(w: real, h: real, left: real, top: real)

  /** `containSize`: the largest placement of a naturalW × naturalH frame
      inside a containerW × containerH box, centred. */
  function ContainSize(containerW: real, containerH: real, naturalW: real, naturalH: real): (p: Placement)
    requires containerW > 0.0 && containerH > 0.0 && naturalW > 0.0 && naturalH > 0.0
    ensures 0.0 < p.w <= containerW && 0.0 < p.h <= containerH
    ensures p.w == containerW || p.h == containerH
    ensures p.w * naturalH == p.h * naturalW
    ensures 0.0 <= p.left && p.left + p.w + p.left == containerW
    ensures 0.0 <= p.top && p.top + p.h + p.top == containerH
  {
    var frameAR := naturalW / naturalH;
    var containerAR := containerW / containerH;
    Cross(containerW, containerH, naturalW, naturalH);
    if frameAR > containerAR then
      var w := containerW;
      var h := w / frameAR;
      DivRatio(containerW, naturalW, naturalH);
      Scaled(containerW, naturalW, naturalH, containerH);
      Placement(w, h, (containerW - w) / 2.0, (containerH - h) / 2.0)
    else
      var h := containerH;
      var w := h * frameAR;
      DivRatio(containerH, naturalH, naturalW);
      Scaled(containerH, naturalH, naturalW, containerW);
      Placement(w, h, (containerW - w) / 2.0, (containerH - h) / 2.0)
  }

  /** `coverSize`: the smallest placement of an imgW × imgH image covering a
      targetW × targetH box; centred along the side that overflows, flush
      along the other. */
  function CoverSize(targetW: real, targetH: real, imgW: real, imgH: real): (p: Placement)
    requires targetW > 0.0 && targetH > 0.0 && imgW > 0.0 && imgH > 0.0
    ensures p.w >= targetW && p.h >= targetH
    ensures p.w == targetW || p.h == targetH
    ensures p.w * imgH == p.h * imgW
    ensures imgW / imgH > targetW / targetH ==> p.top == 0.0 && p.left <= 0.0 && p.left + p.w + p.left == targetW
    ensures imgW / imgH <= targetW / targetH ==> p.left == 0.0 && p.top <= 0.0 && p.top + p.h + p.top == targetH
  {
    var targetAR := targetW / targetH;
    var imgAR := imgW / imgH;
    Cross(targetW, targetH, imgW, imgH);
    if imgAR > targetAR then
      var h := targetH;
      var w := h * imgAR;
      DivRatio(targetH, imgH, imgW);
      Scaled(targetH, imgH, imgW, targetW);
      Placement(w, h, (targetW - w) / 2.0, 0.0)
    else
      var w := targetW;
      var h := w / imgAR;
      DivRatio(targetW, imgW, imgH);
      Scaled(targetW, imgW, imgH, targetH);
      Placement(w, h, 0.0, (targetH - h) / 2.0)
  }

  /** When the frame already has the box's shape, both fits return the box
      itself at the origin. */
  lemma SameShapeIsIdentity(boxW: real, boxH: real, imgW: real, imgH: real)
    requires boxW > 0.0 && boxH > 0.0 && imgW > 0.0 && imgH > 0.0
    requires imgW * boxH == imgH * boxW
    ensures ContainSize(boxW, boxH, imgW, imgH) == Placement(boxW, boxH, 0.0, 0.0)
    ensures CoverSize(boxW, boxH, imgW, imgH) == Placement(boxW, boxH, 0.0, 0.0)
  {
    Cross(boxW, boxH, imgW, imgH);
    DivRatio(boxH, imgH, imgW);
    DivRatio(boxW, imgW, imgH);
    Quot(boxW * imgH, imgH);
    Quot(boxH * imgW, imgW);
  }

  // ---------------------------------------------------------------------
  // Real arithmetic steps

  /** Multiplying by a positive number keeps strict order. */
  lemma MulLt(a: real, b: real, c: real)
    requires c > 0.0
    ensures a < b <==> a * c < b * c
  {
    if a < b { assert (b - a) * c > 0.0; }
    if a * c < b * c { assert (b - a) * c > 0.0; }
  }

  lemma Quot(x: real, y: real)
    requires y != 0.0
    ensures x / y * y == x
  {
  }

  /** Comparing two ratios by cross-multiplying. */
  lemma Cross(a: real, b: real, c: real, d: real)
    requires b > 0.0 && d > 0.0
    ensures a / b < c / d <==> a * d < c * b
  {
    var x, y := a / b, c / d;
    Quot(a, b);
    Quot(c, d);
    MulLt(x, y, b * d);
    assert x * (b * d) == (x * b) * d;
    assert y * (b * d) == (y * d) * b;
  }

  /** Dividing by a ratio n / m, or multiplying by its inverse, is a * m / n. */
  lemma DivRatio(a: real, n: real, m: real)
    requires n > 0.0 && m > 0.0
    ensures a / (n / m) == a * m / n
    ensures a * (m / n) == a * m / n
  {
    var r := n / m;
    Quot(n, m);
    var q := a / r;
    Quot(a, r);
    assert q * n == q * (r * m) == (q * r) * m == a * m;
    Quot(a * m, n);
  }

  /** Side a scaled by nb / na: positive, in that ratio to a, and compared
      with b by cross-multiplying. */
  lemma Scaled(a: real, na: real, nb: real, b: real)
    requires a > 0.0 && na > 0.0 && nb > 0.0
    ensures var s := a * nb / na;
      && s > 0.0 && s * na == a * nb
      && (s < b <==> a * nb < b * na)
      && (s > b <==> a * nb > b * na)
  {
    var s := a * nb / na;
    Quot(a * nb, na);
    MulLt(s, b, na);
    MulLt(b, s, na);
  }
}
