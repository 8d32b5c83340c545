/**
 * The target selection of `Render` in Engine/Code/engine.cpp (model mode):
 * whether the deferred lighting pass runs, which attachment the final
 * full-screen quad samples for each `renderTarget`, and the `isDepth`
 * flag the quad's shader receives. The G-buffer's attachment order and
 * the deferred pass's inputs are recorded alongside.
 */
module RenderTargets {
  import opened Bits
  import opened Scene

  /** The textures the passes write and sample. */
  datatype Attachment = GBufferColor | GBufferPosition | GBufferNormal | GBufferDepth | DeferredColor

  /** The deferred lighting pass runs in render mode 1 only. */
  predicate DeferredPassRuns(renderMode: int)
  {
    renderMode == 1
  }

  /**
   * The `switch` on `renderTarget`: the attachment bound to texture unit 0
   * for the final quad, or nothing for a value without a case.
   */
  function CompositeSource(renderTarget: int, renderMode: int): (source: Option<Attachment>)
  {
    if renderTarget == 0 then
      if renderMode == 1 then Some(DeferredColor) else Some(GBufferColor)
    else if renderTarget == 1 then Some(GBufferPosition)
    else if renderTarget == 2 then Some(GBufferNormal)
    else if renderTarget == 3 then Some(GBufferDepth)
    else None
  }

  /** The `isDepth` uniform: set in the depth case only. */
  function DepthFlag(renderTarget: int): (depth: bool)
  {
    renderTarget == 3
  }

  /** The G-buffer colour attachment each G-buffer texture is bound to when the framebuffer is created. */
  function ColorAttachmentIndex(a: Attachment): (index: Option<nat>)
  {
    match a
    case GBufferColor => Some(0)
    case GBufferNormal => Some(1)
    case GBufferPosition => Some(2)
    case _ => None
  }

  /** The G-buffer texture the deferred pass binds to each of its texture units. */
  function DeferredInput(unit: nat): (input: Option<Attachment>)
  {
    if unit == 0 then Some(GBufferColor)
    else if unit == 1 then Some(GBufferPosition)
    else if unit == 2 then Some(GBufferNormal)
    else None
  }

  /** The GL texture name behind an attachment, given the G-buffer and the deferred framebuffer. */
  function AttachmentHandle(a: Attachment, fbuffer: Framebuffer, deferredFBuffer: Framebuffer): (handle: u32)
  {
    match a
    case GBufferColor => fbuffer.colorAttachmentHandle
    case GBufferPosition => fbuffer.positionAttachmentHandle
    case GBufferNormal => fbuffer.normalAttachmentHandle
    case GBufferDepth => fbuffer.depthAttachmentHandle
    case DeferredColor => deferredFBuffer.colorAttachmentHandle
  }

  /** The texture name `glBindTexture` receives for the final quad, if the switch binds one. */
  function CompositeHandle(renderTarget: int, renderMode: int, fbuffer: Framebuffer, deferredFBuffer: Framebuffer): (handle: Option<u32>)
  {
    match CompositeSource(renderTarget, renderMode)
    case None => None
    case Some(a) => Some(AttachmentHandle(a, fbuffer, deferredFBuffer))
  }

  /** The GL names of the five textures are pairwise distinct, as names `glGenTextures` returns are. */
  predicate DistinctTextures(fbuffer: Framebuffer, deferredFBuffer: Framebuffer)
  {
    var names := [fbuffer.colorAttachmentHandle, fbuffer.positionAttachmentHandle, fbuffer.normalAttachmentHandle,
                  fbuffer.depthAttachmentHandle, deferredFBuffer.colorAttachmentHandle];
    forall i, j :: 0 <= i < j < |names| ==> names[i] != names[j]
  }

  /**
   * The texture `glBindTexture` receives for the final quad is the depth
   * texture exactly when `isDepth` is set, in every render mode.
   */
  lemma DepthFlagIffDepthTextureBound(renderTarget: int, renderMode: int, fbuffer: Framebuffer, deferredFBuffer: Framebuffer)
    requires DistinctTextures(fbuffer, deferredFBuffer)
    ensures DepthFlag(renderTarget)
      <==> CompositeHandle(renderTarget, renderMode, fbuffer, deferredFBuffer) == Some(fbuffer.depthAttachmentHandle)
  {
    var names := [fbuffer.colorAttachmentHandle, fbuffer.positionAttachmentHandle, fbuffer.normalAttachmentHandle,
                  fbuffer.depthAttachmentHandle, deferredFBuffer.colorAttachmentHandle];
    assert names[0] != names[3] && names[1] != names[3] && names[2] != names[3] && names[3] != names[4];
  }

  /**
   * The deferred framebuffer's texture is bound for the final quad exactly
   * for target 0 in the frames where the deferred pass ran.
   */
  lemma DeferredTextureBoundOnlyAfterDeferredPass(renderTarget: int, renderMode: int, fbuffer: Framebuffer, deferredFBuffer: Framebuffer)
    requires DistinctTextures(fbuffer, deferredFBuffer)
    ensures CompositeHandle(renderTarget, renderMode, fbuffer, deferredFBuffer) == Some(deferredFBuffer.colorAttachmentHandle)
      <==> renderTarget == 0 && DeferredPassRuns(renderMode)
  {
    var names := [fbuffer.colorAttachmentHandle, fbuffer.positionAttachmentHandle, fbuffer.normalAttachmentHandle,
                  fbuffer.depthAttachmentHandle, deferredFBuffer.colorAttachmentHandle];
    assert names[0] != names[4] && names[1] != names[4] && names[2] != names[4] && names[3] != names[4];
  }

  /** Exactly the targets 0 to 3 bind a texture. */
  lemma CompositeBindsIffInRange(renderTarget: int, renderMode: int)
    ensures CompositeSource(renderTarget, renderMode).Some? <==> 0 <= renderTarget <= 3
  {
  }

  /** `isDepth` is set exactly when the depth attachment is sampled, in every render mode. */
  lemma DepthFlagIffDepthSampled(renderTarget: int, renderMode: int)
    ensures DepthFlag(renderTarget) <==> CompositeSource(renderTarget, renderMode) == Some(GBufferDepth)
  {
  }

  /**
   * The deferred colour is sampled exactly when target 0 is selected and
   * the deferred pass ran this frame: the quad never shows a deferred
   * result the frame did not produce.
   */
  lemma DeferredColorOnlyAfterDeferredPass(renderTarget: int, renderMode: int)
    ensures CompositeSource(renderTarget, renderMode) == Some(DeferredColor)
      <==> renderTarget == 0 && DeferredPassRuns(renderMode)
  {
  }

  /** The render mode only changes what target 0 shows. */
  lemma ModeMattersOnlyForTarget0(renderTarget: int, mode1: int, mode2: int)
    requires renderTarget != 0
    ensures CompositeSource(renderTarget, mode1) == CompositeSource(renderTarget, mode2)
  {
  }

  /** In one render mode, different targets show different attachments. */
  lemma TargetsShowDistinctAttachments(t1: int, t2: int, renderMode: int)
    requires CompositeSource(t1, renderMode).Some? && t1 != t2
    ensures CompositeSource(t1, renderMode) != CompositeSource(t2, renderMode)
  {
  }

  /**
   * The deferred pass reads back the three G-buffer colour attachments,
   * each on its own texture unit, and nothing else.
   */
  lemma DeferredPassReadsGBuffer(a: Attachment)
    ensures ColorAttachmentIndex(a).Some? <==> exists unit :: 0 <= unit < 3 && DeferredInput(unit) == Some(a)
  {
    match a
    case GBufferColor => assert DeferredInput(0) == Some(a);
    case GBufferPosition => assert DeferredInput(1) == Some(a);
    case GBufferNormal => assert DeferredInput(2) == Some(a);
    case _ =>
  }

  /** The G-buffer attachments occupy distinct colour attachment slots. */
  lemma ColorAttachmentsDistinct(a: Attachment, b: Attachment)
    requires ColorAttachmentIndex(a).Some? && a != b
    ensures ColorAttachmentIndex(a) != ColorAttachmentIndex(b)
  {
  }
}
