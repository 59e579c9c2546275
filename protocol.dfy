/** The host channel: message types (the wire contract), the values the
    webview sends, the requests it receives, and `postMessageToHost`'s
    guard. */
module Protocol {
  import opened Strings

  // Outbound message types.
  const THUMBNAIL := "thumbnail"
  const SAVE_PLOT := "savePlot"
  const COPY_SUCCESS := "copySuccess"
  const COPY_FAILED := "copyFailed"

  // Inbound message types.
  const REQUEST_SAVE_PLOT := "requestSavePlot"
  const REQUEST_COPY_PLOT := "requestCopyPlot"

  /** The fixed reason sent when a copy is asked for without focus. */
  const NO_FOCUS_REASON := "Plot pane does not have focus."

  /** A `savePlot` payload: `{svg, index}` (`svgText` is its `svg`) from the charting-library and
      inline-SVG paths, `{svg, png, gif, index}` from the raster path, where
      `None` stands for `null`. */
  datatype ExportResult =
    | VectorExport(svgText: string, index: int)
    | RasterExport(svg: Option<string>, png: Option<string>, gif: Option<string>, index: int)

  /** The `value` of an outbound message. `Opaque` is an error or rejection
      reason produced by code outside this model, identified by a
      description. */
  datatype Value = Undefined | Text(text: string) | Export(result: ExportResult) | Opaque(description: string)

  /** An outbound message `{type, value}`. */
  datatype Msg = Msg(kind: string, value: Value)

  /** An inbound message's `data`: its `type` and, if present, its `body`. */
  datatype Request = Request(kind: string, body: Option<RequestBody>)
  datatype RequestBody = RequestBody(index: int)

  /** What `postMessageToHost(type, value)` hands to the host transport:
      nothing for a falsy (empty) type, otherwise exactly the one message. */
  function Posted(kind: string, value: Value): (sent: seq<Msg>)
    ensures |sent| <= 1
    ensures sent == [] <==> kind == ""
    ensures forall m :: m in sent ==> m == Msg(kind, value)
  {
    if kind != "" then [Msg(kind, value)] else []
  }

  /** Number of messages of the given type in an outbox. */
  function CountOf(msgs: seq<Msg>, kind: string): nat
  {
    if msgs == [] then 0
    else CountOf(msgs[..|msgs| - 1], kind) + (if msgs[|msgs| - 1].kind == kind then 1 else 0)
  }

  /** Counting is additive over appends to the outbox. */
  lemma {:induction false} CountOfAppend(a: seq<Msg>, b: seq<Msg>, kind: string)
    ensures CountOf(a + b, kind) == CountOf(a, kind) + CountOf(b, kind)
    decreases |b|
  {
    if b == [] {
      assert a + b == a;
    } else {
      var b' := b[..|b| - 1];
      assert (a + b)[..|a + b| - 1] == a + b';
      CountOfAppend(a, b', kind);
    }
  }
}
