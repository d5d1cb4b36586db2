/**
 * Frame geometry: the canvas size and the image placement that the two frame
 * templates compute from the decoded image size and the border thickness.
 * The polaroid frame is integer arithmetic; the normal frame is computed on
 * exact reals, and only the canvas size in pixels is rounded.
 */
module FrameLayout {

  /** Math.round: the nearest integer, a half rounded up. */
  function Round(x: real): (n: int)
    ensures x - 0.5 < n as real <= x + 0.5
  {
    (x + 0.5).Floor
  }

  /** Math.min on two finite numbers. */
  function Min(a: real, b: real): (m: real)
    ensures m <= a && m <= b && (m == a || m == b)
  {
    if a <= b then a else b
  }

  // ---------------------------------------------------------------------------
  // Polaroid frame
  // ---------------------------------------------------------------------------

  /** The polaroid canvas and the rectangle the image is drawn into, in pixels. */
  datatype PolaroidLayout = PolaroidLayout(
    canvasW: int, canvasH: int,
    imageX: int, imageY: int, drawW: int, drawH: int)

  /**
   * Polaroid frame of border thickness `border`: the image keeps its size and
   * is framed by `border` on the left, the right and the top and by three
   * times `border` at the bottom.
   */
  function PolaroidLayoutOf(imgW: int, imgH: int, border: int): (l: PolaroidLayout)
    ensures l.drawW == imgW && l.drawH == imgH
    ensures l.imageX == border
    ensures l.canvasW - (l.imageX + l.drawW) == border
    ensures l.imageY == border
    ensures l.canvasH - (l.imageY + l.drawH) == 3 * border
  {
    var frameSides := border;
    var frameTop := frameSides;
    var frameBottom := frameSides * 3;
    PolaroidLayout(imgW + frameSides * 2, imgH + frameTop + frameBottom,
                   frameSides, frameTop, imgW, imgH)
  }

  /** With a non-negative border the image lies inside the canvas, unscaled. */
  lemma PolaroidContained(imgW: int, imgH: int, border: int)
    requires imgW > 0 && imgH > 0 && border >= 0
    ensures var l := PolaroidLayoutOf(imgW, imgH, border);
      0 <= l.imageX && l.imageX + l.drawW <= l.canvasW &&
      0 <= l.imageY && l.imageY + l.drawH <= l.canvasH &&
      l.canvasW == imgW + 2 * border && l.canvasH == imgH + 4 * border
  {
  }

  // ---------------------------------------------------------------------------
  // Normal frame
  // ---------------------------------------------------------------------------

  /** Where the image is drawn on the canvas; drawImage takes fractional values. */
  datatype Placement = Placement(x: real, y: real, w: real, h: real)

  /**
   * The normal frame: the exact canvas size, the canvas size in pixels that
   * the canvas element is given, the scale factor and the image placement,
   * which is computed from the exact size.
   */
  datatype NormalLayout = NormalLayout(
    canvasW: real, canvasH: real,
    pixelW: int, pixelH: int,
    scale: real, image: Placement)

  /**
   * The comparison `fullW / fullH > targetRatio`. A zero height gives
   * +Infinity for a positive width, -Infinity for a negative one and NaN for
   * zero; only +Infinity exceeds a finite ratio.
   */
  predicate BorderedWiderThanTarget(fullW: int, fullH: int, target: real)
    ensures fullH > 0 ==>
      (BorderedWiderThanTarget(fullW, fullH, target) <==> fullW as real > target * fullH as real)
    ensures fullH < 0 ==>
      (BorderedWiderThanTarget(fullW, fullH, target) <==> fullW as real < target * fullH as real)
  {
    if fullH > 0 then
      RatioAbove(fullW as real, fullH as real, target);
      fullW as real / fullH as real > target
    else if fullH < 0 then
      RatioAbove(-fullW as real, -fullH as real, target);
      assert fullW as real / fullH as real == (-fullW as real) / (-fullH as real);
      fullW as real / fullH as real > target
    else
      fullW > 0
  }

  /** The image size with the border added on every side. */
  function FullW(imgW: int, border: int): (w: int) { imgW + border * 2 }
  function FullH(imgH: int, border: int): (h: int) { imgH + border * 2 }

  /**
   * Normal frame for a `target` width/height ratio: one side of the canvas is
   * the bordered image size, chosen by comparing the bordered ratio with the
   * target, and the other side follows from the target ratio; the image is
   * scaled to fit the canvas less the border and centred.
   */
  function NormalLayoutOf(imgW: int, imgH: int, border: int, target: real): (l: NormalLayout)
    requires imgW > 0 && imgH > 0 && target > 0.0
    ensures l.canvasW - 0.5 < l.pixelW as real <= l.canvasW + 0.5
    ensures l.canvasH - 0.5 < l.pixelH as real <= l.canvasH + 0.5
  {
    var canvas := NormalCanvas(FullW(imgW, border), FullH(imgH, border), target);
    NormalPlacement(imgW, imgH, border, canvas.0, canvas.1)
  }

  /** The two sides of the exact canvas, chosen by comparing the bordered ratio with the target. */
  function NormalCanvas(fullW: int, fullH: int, target: real): (c: (real, real))
    requires target > 0.0
    ensures c.0 == fullW as real || c.1 == fullH as real
  {
    if BorderedWiderThanTarget(fullW, fullH, target)
    then (fullW as real, fullW as real / target)
    else (fullH as real * target, fullH as real)
  }

  /**
   * Given the exact canvas: round it for the canvas element, fit the image
   * into the canvas less the border and centre it.
   */
  function NormalPlacement(imgW: int, imgH: int, border: int, canvasW: real, canvasH: real): (l: NormalLayout)
    requires imgW > 0 && imgH > 0
    ensures l.canvasW == canvasW && l.canvasH == canvasH
    ensures canvasW - 0.5 < l.pixelW as real <= canvasW + 0.5
    ensures canvasH - 0.5 < l.pixelH as real <= canvasH + 0.5
  {
    var availableW := canvasW - (border * 2) as real;
    var availableH := canvasH - (border * 2) as real;
    var scale := Min(availableW / imgW as real, availableH / imgH as real);
    var drawW := imgW as real * scale;
    var drawH := imgH as real * scale;
    var offsetX := (canvasW - drawW) / 2.0;
    var offsetY := (canvasH - drawH) / 2.0;
    NormalLayout(canvasW, canvasH, Round(canvasW), Round(canvasH),
                 scale, Placement(offsetX, offsetY, drawW, drawH))
  }

  // One step of real arithmetic each, used by the proofs below.

  lemma RatioAbove(a: real, b: real, t: real)
    requires b > 0.0
    ensures a / b > t <==> a > t * b
  {
    if a / b > t {
      assert a == (a / b) * b;
    }
    if a > t * b {
      assert a / b > (t * b) / b;
    }
  }

  lemma QuotientAbove(a: real, t: real, b: real)
    requires t > 0.0 && a > t * b
    ensures a / t > b
  {
    assert a / t > (t * b) / t;
  }

  lemma QuotientAtLeastOne(a: real, b: real)
    requires b > 0.0 && a >= b
    ensures a / b >= 1.0
  {
    assert a / b >= b / b;
  }

  /** In both branches the exact canvas has exactly the target ratio. */
  lemma CanvasHasTargetRatio(fullW: int, fullH: int, target: real)
    requires target > 0.0
    ensures var (canvasW, canvasH) := NormalCanvas(fullW, fullH, target);
      canvasW == canvasH * target && (canvasH != 0.0 ==> canvasW / canvasH == target)
  {
  }

  /**
   * With a non-negative bordered height the exact canvas covers the bordered
   * image and equals it on the side the comparison picks.
   */
  lemma CanvasCoversBordered(fullW: int, fullH: int, target: real)
    requires target > 0.0 && fullH >= 0
    ensures var (canvasW, canvasH) := NormalCanvas(fullW, fullH, target);
      canvasW >= fullW as real && canvasH >= fullH as real &&
      if BorderedWiderThanTarget(fullW, fullH, target)
      then canvasW == fullW as real
      else canvasH == fullH as real
  {
    var wider := BorderedWiderThanTarget(fullW, fullH, target);
    if fullH > 0 {
      RatioAbove(fullW as real, fullH as real, target);
      if wider {
        QuotientAbove(fullW as real, target, fullH as real);
      }
    } else if wider {
      assert fullW as real > target * 0.0;
      QuotientAbove(fullW as real, target, 0.0);
    }
  }

  /**
   * When the canvas less the border holds the image on both axes and fits it
   * exactly on one, the image is drawn unscaled, centred, with at least
   * `border` free on every side.
   */
  lemma PlacementUnscaled(imgW: int, imgH: int, border: int, canvasW: real, canvasH: real)
    requires imgW > 0 && imgH > 0
    requires canvasW >= FullW(imgW, border) as real && canvasH >= FullH(imgH, border) as real
    requires canvasW == FullW(imgW, border) as real || canvasH == FullH(imgH, border) as real
    ensures var l := NormalPlacement(imgW, imgH, border, canvasW, canvasH);
      l.scale == 1.0 && l.image.w == imgW as real && l.image.h == imgH as real &&
      2.0 * l.image.x + l.image.w == canvasW && 2.0 * l.image.y + l.image.h == canvasH &&
      l.image.x >= border as real && l.image.y >= border as real
  {
    var availableW := canvasW - (border * 2) as real;
    var availableH := canvasH - (border * 2) as real;
    var fitW, fitH := availableW / imgW as real, availableH / imgH as real;
    QuotientAtLeastOne(availableW, imgW as real);
    QuotientAtLeastOne(availableH, imgH as real);
    if canvasW == FullW(imgW, border) as real {
      DivSelf(imgW as real);
      assert fitW == 1.0;
    } else {
      DivSelf(imgH as real);
      assert fitH == 1.0;
    }
    assert Min(fitW, fitH) == 1.0;
    var l := NormalPlacement(imgW, imgH, border, canvasW, canvasH);
    assert l.scale == 1.0;
  }

  /**
   * For any exact canvas the image keeps its aspect ratio, fits the canvas
   * less the border on both axes, fills it on one axis and is centred.
   */
  lemma PlacementFitsCentred(imgW: int, imgH: int, border: int, canvasW: real, canvasH: real)
    requires imgW > 0 && imgH > 0
    ensures var l := NormalPlacement(imgW, imgH, border, canvasW, canvasH);
      var availableW, availableH := canvasW - (border * 2) as real, canvasH - (border * 2) as real;
      l.image.w * imgH as real == l.image.h * imgW as real &&
      l.image.w <= availableW && l.image.h <= availableH &&
      (l.image.w == availableW || l.image.h == availableH) &&
      2.0 * l.image.x + l.image.w == canvasW && 2.0 * l.image.y + l.image.h == canvasH
  {
    var availableW := canvasW - (border * 2) as real;
    var availableH := canvasH - (border * 2) as real;
    var w, h := imgW as real, imgH as real;
    var fitW, fitH := availableW / w, availableH / h;
    var scale := Min(fitW, fitH);
    ScaleUpTo(w, scale, fitW, availableW);
    ScaleUpTo(h, scale, fitH, availableH);
    assert (w * scale) * h == (h * scale) * w;
  }

  /** Scaling a positive size by at most `x / a` gives at most `x`, and exactly `x` at `x / a`. */
  lemma ScaleUpTo(a: real, s: real, fit: real, x: real)
    requires a > 0.0 && fit == x / a && s <= fit
    ensures a * s <= x && (s == fit ==> a * s == x)
  {
    assert a * fit == x;
    assert a * s <= a * fit;
  }

  /**
   * A canvas of exact ratio `t` whose sides are each rounded to within half a
   * pixel keeps the ratio up to rounding; `NormalLayoutOf` guarantees both
   * premises, the ratio through `NormalCanvasHasTargetRatio`.
   */
  lemma PixelRatioWithinRounding(w: real, h: real, pw: real, ph: real, t: real)
    requires t > 0.0 && w == h * t
    requires w - 0.5 < pw <= w + 0.5 && h - 0.5 < ph <= h + 0.5
    ensures -(1.0 + t) / 2.0 < pw - ph * t <= (1.0 + t) / 2.0
  {
    var d := ph - h;
    MulBounds(d, t);
    assert ph * t == w + d * t;
  }

  lemma MulBounds(d: real, t: real)
    requires t > 0.0 && -0.5 < d <= 0.5
    ensures -0.5 * t < d * t <= 0.5 * t
  {
  }

  lemma DivSelf(x: real)
    requires x != 0.0
    ensures x / x == 1.0
  {
  }

  /** In both branches the exact canvas has exactly the target width/height ratio. */
  lemma NormalCanvasHasTargetRatio(imgW: int, imgH: int, border: int, target: real)
    requires imgW > 0 && imgH > 0 && target > 0.0
    ensures var l := NormalLayoutOf(imgW, imgH, border, target);
      l.canvasW == l.canvasH * target &&
      (l.canvasH != 0.0 ==> l.canvasW / l.canvasH == target)
  {
    CanvasHasTargetRatio(FullW(imgW, border), FullH(imgH, border), target);
  }

  /** The pixel sides keep the ratio `t` up to the rounding of each side by half a pixel. */
  predicate PixelRatioClose(l: NormalLayout, t: real)
  {
    -(1.0 + t) / 2.0 < l.pixelW as real - l.pixelH as real * t <= (1.0 + t) / 2.0
  }

  /** The canvas in pixels keeps the target ratio up to the rounding of its two sides. */
  lemma NormalPixelRatioWithinRounding(imgW: int, imgH: int, border: int, target: real)
    requires imgW > 0 && imgH > 0 && target > 0.0
    ensures PixelRatioClose(NormalLayoutOf(imgW, imgH, border, target), target)
  {
    var canvas := NormalCanvas(FullW(imgW, border), FullH(imgH, border), target);
    CanvasHasTargetRatio(FullW(imgW, border), FullH(imgH, border), target);
    PlacementPixelRatio(imgW, imgH, border, canvas.0, canvas.1, target);
  }

  /** `PixelRatioWithinRounding` for the pixel sides of a placement on a canvas of ratio `t`. */
  lemma PlacementPixelRatio(imgW: int, imgH: int, border: int, canvasW: real, canvasH: real, t: real)
    requires imgW > 0 && imgH > 0 && t > 0.0 && canvasW == canvasH * t
    ensures PixelRatioClose(NormalPlacement(imgW, imgH, border, canvasW, canvasH), t)
  {
    var l := NormalPlacement(imgW, imgH, border, canvasW, canvasH);
    PixelRatioWithinRounding(canvasW, canvasH, l.pixelW as real, l.pixelH as real, t);
  }

  /** The side of the canvas that equals the bordered image size is exact in pixels too. */
  lemma NormalPixelExactOnMatchedSide(imgW: int, imgH: int, border: int, target: real)
    requires imgW > 0 && imgH > 0 && target > 0.0
    ensures var l := NormalLayoutOf(imgW, imgH, border, target);
      if BorderedWiderThanTarget(FullW(imgW, border), FullH(imgH, border), target)
      then l.pixelW == FullW(imgW, border)
      else l.pixelH == FullH(imgH, border)
  {
  }

  /**
   * With a non-negative bordered height, the exact canvas is at least the
   * bordered image on both axes and equals it on the axis the comparison of
   * the bordered ratio with the target picks.
   */
  lemma NormalCanvasCoversBordered(imgW: int, imgH: int, border: int, target: real)
    requires imgW > 0 && imgH > 0 && target > 0.0
    requires FullH(imgH, border) >= 0
    ensures var l := NormalLayoutOf(imgW, imgH, border, target);
      var fullW, fullH := FullW(imgW, border), FullH(imgH, border);
      l.canvasW >= fullW as real && l.canvasH >= fullH as real &&
      if BorderedWiderThanTarget(fullW, fullH, target)
      then l.canvasW == fullW as real
      else l.canvasH == fullH as real
  {
    CanvasCoversBordered(FullW(imgW, border), FullH(imgH, border), target);
  }

  /**
   * With a non-negative bordered height the normal frame never resizes the
   * image: the fitting scale is exactly 1, and the image is centred on the
   * exact canvas with at least `border` free on every side.
   */
  lemma NormalNeverResizes(imgW: int, imgH: int, border: int, target: real)
    requires imgW > 0 && imgH > 0 && target > 0.0
    requires FullH(imgH, border) >= 0
    ensures var l := NormalLayoutOf(imgW, imgH, border, target);
      l.scale == 1.0 && l.image.w == imgW as real && l.image.h == imgH as real &&
      2.0 * l.image.x + l.image.w == l.canvasW &&
      2.0 * l.image.y + l.image.h == l.canvasH &&
      l.image.x >= border as real && l.image.x + l.image.w + border as real <= l.canvasW &&
      l.image.y >= border as real && l.image.y + l.image.h + border as real <= l.canvasH
  {
    var canvas := NormalCanvas(FullW(imgW, border), FullH(imgH, border), target);
    CanvasCoversBordered(FullW(imgW, border), FullH(imgH, border), target);
    PlacementUnscaled(imgW, imgH, border, canvas.0, canvas.1);
  }

  /**
   * The bound on the bordered height is needed: with a border below minus half
   * the image height the fitting scale can drop below 1.
   */
  lemma NormalShrinksUnderLargeNegativeBorder()
    ensures NormalLayoutOf(10, 10, -10, 4.0 / 3.0).scale == 2.0 / 3.0
  {
    assert !BorderedWiderThanTarget(-10, -10, 4.0 / 3.0);
    assert NormalCanvas(-10, -10, 4.0 / 3.0) == (-40.0 / 3.0, -10.0);
  }

  /** A negative bordered height does not always shrink: on a square target 10x10 with border -10 stays unscaled. */
  lemma NormalUnscaledOnNegativeSquare()
    ensures NormalLayoutOf(10, 10, -10, 1.0).scale == 1.0
  {
    assert !BorderedWiderThanTarget(-10, -10, 1.0);
    assert NormalCanvas(-10, -10, 1.0) == (-10.0, -10.0);
  }

  /**
   * A placement on a canvas with one side equal to the bordered size never
   * enlarges the image: on that axis the fit is exactly 1.
   */
  lemma PlacementNeverEnlarges(imgW: int, imgH: int, border: int, canvasW: real, canvasH: real)
    requires imgW > 0 && imgH > 0
    requires canvasW == FullW(imgW, border) as real || canvasH == FullH(imgH, border) as real
    ensures NormalPlacement(imgW, imgH, border, canvasW, canvasH).scale <= 1.0
  {
    var availableW := canvasW - (border * 2) as real;
    var availableH := canvasH - (border * 2) as real;
    var fitW, fitH := availableW / imgW as real, availableH / imgH as real;
    if canvasW == FullW(imgW, border) as real {
      DivSelf(imgW as real);
      assert fitW == 1.0;
    } else {
      DivSelf(imgH as real);
      assert fitH == 1.0;
    }
    assert Min(fitW, fitH) <= 1.0;
  }

  /** For every input, negative borders included, the normal frame never enlarges the image. */
  lemma NormalNeverEnlarges(imgW: int, imgH: int, border: int, target: real)
    requires imgW > 0 && imgH > 0 && target > 0.0
    ensures NormalLayoutOf(imgW, imgH, border, target).scale <= 1.0
  {
    var canvas := NormalCanvas(FullW(imgW, border), FullH(imgH, border), target);
    PlacementNeverEnlarges(imgW, imgH, border, canvas.0, canvas.1);
  }

  /**
   * With one side exact, the pixel ratio error is that of the other side
   * alone: at most `t / 2` when the height is rounded, `1 / 2` when the width is.
   */
  lemma PixelRatioOneSideExact(w: real, h: real, pw: real, ph: real, t: real)
    requires t > 0.0 && w == h * t
    requires w - 0.5 < pw <= w + 0.5 && h - 0.5 < ph <= h + 0.5
    requires pw == w || ph == h
    ensures var b := if t > 1.0 then t / 2.0 else 0.5;
      -b <= pw - ph * t <= b
  {
    var d := ph - h;
    MulBounds(d, t);
    assert ph * t == w + d * t;
  }

  /** The pixel sides keep the ratio `t` to within half a pixel, or `t / 2` for a wide target. */
  predicate PixelRatioTight(l: NormalLayout, t: real)
  {
    var b := if t > 1.0 then t / 2.0 else 0.5;
    -b <= l.pixelW as real - l.pixelH as real * t <= b
  }

  /** `PixelRatioOneSideExact` for a placement on a canvas of ratio `t` with one integer side. */
  lemma PlacementPixelRatioTight(imgW: int, imgH: int, border: int, canvasW: real, canvasH: real,
                                 t: real, fullW: int, fullH: int)
    requires imgW > 0 && imgH > 0 && t > 0.0 && canvasW == canvasH * t
    requires canvasW == fullW as real || canvasH == fullH as real
    ensures PixelRatioTight(NormalPlacement(imgW, imgH, border, canvasW, canvasH), t)
  {
    var l := NormalPlacement(imgW, imgH, border, canvasW, canvasH);
    if canvasW == fullW as real {
      assert l.pixelW == fullW;
    } else {
      assert l.pixelH == fullH;
    }
    PixelRatioOneSideExact(canvasW, canvasH, l.pixelW as real, l.pixelH as real, t);
  }

  /**
   * The canvas in pixels keeps the target ratio within half a pixel for the
   * ratios up to 1 and within `target / 2` above, at most 3/4 of a pixel for
   * the offered ratios: the matched side is exact and only the other is rounded.
   */
  lemma NormalPixelRatioTight(imgW: int, imgH: int, border: int, target: real)
    requires imgW > 0 && imgH > 0 && target > 0.0
    ensures PixelRatioTight(NormalLayoutOf(imgW, imgH, border, target), target)
  {
    var fullW, fullH := FullW(imgW, border), FullH(imgH, border);
    var canvas := NormalCanvas(fullW, fullH, target);
    CanvasHasTargetRatio(fullW, fullH, target);
    PlacementPixelRatioTight(imgW, imgH, border, canvas.0, canvas.1, target, fullW, fullH);
  }
}
