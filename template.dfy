/** The template selector: which frame is drawn, and when the aspect selector is in use. */
module Template {
  import opened FrameLayout
  import Aspect

  const PolaroidTemplate: string := "polaroid"
  const NormalTemplate: string := "normal"

  /** The aspect selector is disabled exactly for the polaroid template. */
  predicate IsAspectDisabled(templateId: string)
  {
    templateId == PolaroidTemplate
  }

  /** The geometry of one rendered frame. */
  datatype Frame = PolaroidFrame(polaroid: PolaroidLayout) | NormalFrame(normal: NormalLayout)

  /**
   * The frame drawn for a decoded image: the polaroid template gets the
   * polaroid frame and every other template id the normal frame, with the
   * ratio selected by the aspect token.
   */
  function GenerateTemplate(templateId: string, imgW: int, imgH: int, border: int, aspectToken: string): (f: Frame)
    requires imgW > 0 && imgH > 0
    ensures f.PolaroidFrame? <==> templateId == PolaroidTemplate
    ensures f.PolaroidFrame? ==>
      f.polaroid.canvasW == imgW + 2 * border && f.polaroid.canvasH == imgH + 4 * border &&
      f.polaroid.imageX == border && f.polaroid.imageY == border &&
      f.polaroid.drawW == imgW && f.polaroid.drawH == imgH
    ensures f.NormalFrame? ==>
      f.normal == NormalLayoutOf(imgW, imgH, border, Aspect.ParseAspectRatio(aspectToken)) &&
      f.normal.canvasW == f.normal.canvasH * Aspect.ParseAspectRatio(aspectToken)
  {
    if templateId == PolaroidTemplate then
      PolaroidFrame(PolaroidLayoutOf(imgW, imgH, border))
    else
      var target := Aspect.ParseAspectRatio(aspectToken);
      NormalCanvasHasTargetRatio(imgW, imgH, border, target);
      NormalFrame(NormalLayoutOf(imgW, imgH, border, target))
  }

  /** While the aspect selector is disabled its value has no effect on the frame. */
  lemma AspectIgnoredWhenDisabled(templateId: string, imgW: int, imgH: int, border: int, a1: string, a2: string)
    requires imgW > 0 && imgH > 0 && IsAspectDisabled(templateId)
    ensures GenerateTemplate(templateId, imgW, imgH, border, a1) == GenerateTemplate(templateId, imgW, imgH, border, a2)
  {
  }

  /**
   * While the aspect selector is enabled its value matters: for a positive
   * bordered height the 4:3 and 1:1 settings give different frames.
   */
  lemma AspectMattersWhenEnabled(templateId: string, imgW: int, imgH: int, border: int)
    requires imgW > 0 && imgH > 0 && !IsAspectDisabled(templateId)
    requires FullH(imgH, border) > 0
    ensures GenerateTemplate(templateId, imgW, imgH, border, "43") != GenerateTemplate(templateId, imgW, imgH, border, "11")
  {
    var wide := NormalLayoutOf(imgW, imgH, border, 4.0 / 3.0);
    var square := NormalLayoutOf(imgW, imgH, border, 1.0);
    NormalCanvasHasTargetRatio(imgW, imgH, border, 4.0 / 3.0);
    NormalCanvasCoversBordered(imgW, imgH, border, 4.0 / 3.0);
    NormalCanvasHasTargetRatio(imgW, imgH, border, 1.0);
    assert wide.canvasH > 0.0;
    assert wide.canvasH == square.canvasH ==> wide.canvasW != square.canvasW;
  }

  /** An unrecognised aspect token renders exactly like the 4:3 token. */
  lemma UnknownAspectRendersAsDefault(templateId: string, imgW: int, imgH: int, border: int, aspectToken: string)
    requires imgW > 0 && imgH > 0 && !Aspect.IsKnownToken(aspectToken)
    ensures GenerateTemplate(templateId, imgW, imgH, border, aspectToken)
         == GenerateTemplate(templateId, imgW, imgH, border, Aspect.DefaultToken)
  {
    Aspect.UnknownTokenIsDefault(aspectToken);
  }

  /** A 1000x800 image with border 40 on the 4:3 normal frame fills the height. */
  lemma NormalFrameExample()
    ensures GenerateTemplate(NormalTemplate, 1000, 800, 40, "43")
         == NormalFrame(NormalLayout(3520.0 / 3.0, 880.0, 1173, 880,
                                     1.0, Placement(260.0 / 3.0, 40.0, 1000.0, 800.0)))
  {
    assert !BorderedWiderThanTarget(1080, 880, 4.0 / 3.0);
    NormalNeverResizes(1000, 800, 40, 4.0 / 3.0);
  }

  /** A 500x500 image with border 20 on the polaroid frame. */
  lemma PolaroidFrameExample()
    ensures GenerateTemplate(PolaroidTemplate, 500, 500, 20, "43")
         == PolaroidFrame(PolaroidLayout(540, 580, 20, 20, 500, 500))
  {
  }
}
