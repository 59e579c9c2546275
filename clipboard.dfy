/** `handlePlotCopyRequest`: what a copy request reports to the host. The
    asynchronous steps (decoding the SVG into an image or rasterising the
    element, encoding the canvas as a blob, writing to the clipboard) are
    inputs describing how each ended. */
module Clipboard {
  import opened Page
  import opened Protocol

  /** How an asynchronous step ended: it resolved, it was rejected with a
      reason, or it never reached code that reports anything. */
  datatype Settlement = Resolved | Rejected(reason: Value) | Silent

  /** `render` is the image's `onload` on the vector path and the
      rasteriser's promise on the raster path; `blobProduced` is whether
      `canvas.toBlob` delivered a blob rather than `null`; `write` is the
      clipboard write's promise. */
  datatype CopyInputs = CopyInputs(render: Settlement, blobProduced: bool, write: Settlement)

  /** The report once a blob exists: the clipboard write's outcome. */
  function WriteReport(write: Settlement): seq<Msg>
  {
    match write
    case Resolved => [Msg(COPY_SUCCESS, Undefined)]
    case Rejected(err) => [Msg(COPY_FAILED, err)]
    case Silent => []
  }

  /** The messages a copy request sends. Without focus, the fixed failure and
      nothing else. With focus, on the vector path an image that never loads
      reports nothing (there is no `onerror` handler), and on the raster path
      a rasteriser rejection is reported as `copyFailed`; on both paths a
      `null` blob makes the callback throw before anything is reported. */
  function CopyMessages(doc: Document, inputs: CopyInputs): (sent: seq<Msg>)
    ensures |sent| <= 1
    ensures !doc.hasFocus ==> sent == [Msg(COPY_FAILED, Text(NO_FOCUS_REASON))]
    ensures forall m :: m in sent ==> m.kind == COPY_SUCCESS || m.kind == COPY_FAILED
    ensures (exists m :: m in sent && m.kind == COPY_SUCCESS) <==>
      doc.hasFocus && inputs.render.Resolved? && inputs.blobProduced && inputs.write.Resolved?
    ensures sent == [] <==>
      doc.hasFocus &&
      if IsSvgTag(doc) then !(inputs.render.Resolved? && inputs.blobProduced) || inputs.write.Silent?
      else inputs.render.Silent? || (inputs.render.Resolved? && (!inputs.blobProduced || inputs.write.Silent?))
  {
    if !doc.hasFocus then [Msg(COPY_FAILED, Text(NO_FOCUS_REASON))]
    else
      match ChooseCopy(doc)
      case VectorCopy(_) =>
        if inputs.render.Resolved? && inputs.blobProduced then WriteReport(inputs.write) else []
      case RasterCopy(_) =>
        match inputs.render
        case Rejected(reason) => [Msg(COPY_FAILED, reason)]
        case Silent => []
        case Resolved => if inputs.blobProduced then WriteReport(inputs.write) else []
  }

  /** Without focus the outcome does not depend on anything the pipeline
      would have produced: the handler returns before rasterising. */
  lemma NoFocusIgnoresPipeline(doc: Document, a: CopyInputs, b: CopyInputs)
    requires !doc.hasFocus
    ensures CopyMessages(doc, a) == CopyMessages(doc, b)
  {
  }

  /** With focus, a rejected clipboard write after a produced blob is always
      reported as `copyFailed` carrying the write's reason, on either path. */
  lemma WriteFailureReported(doc: Document, inputs: CopyInputs)
    requires doc.hasFocus && inputs.render.Resolved? && inputs.blobProduced
    requires inputs.write.Rejected?
    ensures CopyMessages(doc, inputs) == [Msg(COPY_FAILED, inputs.write.reason)]
  {
  }

  /** The two paths differ on a failed render: the raster path reports it,
      the vector path stays silent. */
  lemma RenderFailureByPath(doc: Document, inputs: CopyInputs)
    requires doc.hasFocus && inputs.render.Rejected?
    ensures IsSvgTag(doc) ==> CopyMessages(doc, inputs) == []
    ensures !IsSvgTag(doc) ==> CopyMessages(doc, inputs) == [Msg(COPY_FAILED, inputs.render.reason)]
  {
  }
}
