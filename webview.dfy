/** The webview script's mutable state and its event handlers: the
    thumbnail interval, the pan/zoom transform and its gestures, the
    `isMove` flag with the `pan-zoom` class, and the outbox of messages
    handed to the host. Each event is a method; what the browser or a
    library computes asynchronously is a parameter. */
module Webview {
  import opened Strings
  import opened Page
  import opened Protocol
  import opened Export
  import opened Clipboard

  /** The rasteriser's outcome for a thumbnail: the canvas's PNG data URL,
      or the rejection reason (which is only logged). */
  datatype Rasterised = Rendered(dataUrl: string) | RenderFailed(reason: Value)

  /** What a host request's handlers may depend on besides the document:
      the URL the charting library's snapshot `success` event delivers (if
      it fires), `decodeURIComponent` (`None` where it throws) and the copy
      pipeline's outcomes. */
  datatype HostEnvironment = HostEnvironment(
    plotlyUrl: Option<string>,
    decode: string -> Option<string>,
    copy: CopyInputs)

  /** The `savePlot` message a save request sends, if any. */
  function SaveMessages(doc: Document, index: int, env: HostEnvironment): (sent: seq<Msg>)
    ensures |sent| <= 1
    ensures forall m :: m in sent ==>
      m.kind == SAVE_PLOT && m.value.Export? && m.value.result.index == index
    ensures ChooseExport(doc) == InlineSvg ==> |sent| == 1
  {
    match SaveResult(doc, index, env.plotlyUrl, env.decode)
    case None => []
    case Some(r) => [Msg(SAVE_PLOT, Export(r))]
  }

  /** The located plot element has a nonzero rendered width and height. */
  predicate PlotHasSize(doc: Document)
  {
    GetPlotElement(doc).offsetWidth > 0 && GetPlotElement(doc).offsetHeight > 0
  }

  /** The thumbnail a `getImage` call sends: none for a zero-sized element
      or a failed rasterisation, otherwise exactly one `thumbnail` carrying
      the PNG data URL. */
  function ThumbnailMessages(doc: Document, result: Rasterised): (sent: seq<Msg>)
    ensures |sent| <= 1
    ensures sent != [] <==> PlotHasSize(doc) && result.Rendered?
    ensures forall m :: m in sent ==> m == Msg(THUMBNAIL, Text(result.dataUrl))
  {
    if PlotHasSize(doc) then
      match result
      case Rendered(url) => [Msg(THUMBNAIL, Text(url))]
      case RenderFailed(_) => []
    else []
  }

  /** The `panzoom` global as `initPanZoom` finds it: not declared at all
      (reading it throws), declared but falsy, or the library. */
  datatype PanZoomGlobal = Undeclared | Falsy | Present

  /** The `load` handler runs to its end: neither the export-button lookup
      nor the `panzoom` test throws. */
  predicate LoadCompletes(panzoom: PanZoomGlobal, doc: Document)
  {
    !RemoveBuiltinExportThrows(doc) && panzoom != Undeclared
  }

  /** `beforeMouseDown` and `beforeWheel`: the value the filter hands back to
      the pan/zoom library for a gesture, which that library reads as
      "ignore this gesture". */
  function GestureFilter(altKey: bool): (ignore: bool)
  {
    !altKey
  }

  /** `resetZoomAndPan`'s guard: a call without an event, or an event with
      Alt held, resets; an event without Alt returns early. */
  function ResetApplies(altKey: Option<bool>): bool
  {
    !(altKey.Some? && !altKey.value)
  }

  /** Gestures reach the pan/zoom library for exactly the events that the
      double-click reset acts on: both gates open on Alt. */
  lemma GatesAgree(altKey: bool)
    ensures !GestureFilter(altKey) <==> ResetApplies(Some(altKey))
    ensures ResetApplies(None)
  {
  }

  class PlotWebview {
    /** The thumbnail interval has not been cleared. */
    var intervalActive: bool
    /** `initPanZoom` found the pan/zoom library and attached its handlers. */
    var panZoomAttached: bool
    /** The pan/zoom transform. */
    var panX: real
    var panY: real
    var zoom: real
    /** `initPanZoom`'s `isMove` local and the plot's `pan-zoom` class. */
    var isMove: bool
    var panZoomClass: bool
    /** Every message handed to the host, in order. */
    var outbox: seq<Msg>
    /** Number of rasterisations started (thumbnail or copy). */
    ghost var rasterisations: nat

    /** The timer has run exactly until the one thumbnail was sent: no
        thumbnail while it is active, exactly one once it is cleared. */
    ghost predicate ThumbnailInvariant()
      reads this
    {
      CountOf(outbox, THUMBNAIL) == if intervalActive then 0 else 1
    }

    /** The `pan-zoom` class is on the plot exactly while `isMove` is set. */
    ghost predicate MoveMarkerInvariant()
      reads this
    {
      isMove == panZoomClass
    }

    /** The script's evaluation: the interval is created and nothing has
        been sent. The transform is the pan/zoom library's initial one. */
    constructor ()
      ensures intervalActive && !panZoomAttached
      ensures panX == 0.0 && panY == 0.0 && zoom == 1.0
      ensures !isMove && !panZoomClass
      ensures outbox == [] && rasterisations == 0
      ensures ThumbnailInvariant() && MoveMarkerInvariant()
    {
      intervalActive := true;
      panZoomAttached := false;
      panX, panY, zoom := 0.0, 0.0, 1.0;
      isMove, panZoomClass := false, false;
      outbox := [];
      rasterisations := 0;
    }

    /** `postMessageToHost`: appends the message, unless its type is falsy. */
    method PostMessageToHost(kind: string, value: Value)
      modifies this`outbox
      ensures outbox == old(outbox) + Posted(kind, value)
    {
      if kind != "" {
        outbox := outbox + [Msg(kind, value)];
      }
    }

    /** `getImage`: a located element of zero width or height is skipped;
        otherwise the element is rasterised, and on success one thumbnail is
        sent and the interval cleared, while a failure sends nothing and
        leaves the interval running. */
    method GetImage(doc: Document, result: Rasterised)
      modifies this`outbox, this`intervalActive, this`rasterisations
      ensures outbox == old(outbox) + ThumbnailMessages(doc, result)
      ensures intervalActive == (old(intervalActive) && ThumbnailMessages(doc, result) == [])
      ensures rasterisations == old(rasterisations) + (if PlotHasSize(doc) then 1 else 0)
      ensures old(intervalActive) && old(ThumbnailInvariant()) ==> ThumbnailInvariant()
    {
      var plot := GetPlotElement(doc);
      var width := plot.offsetWidth;
      var height := plot.offsetHeight;
      if width > 0 && height > 0 {
        rasterisations := rasterisations + 1;
        match result
        case Rendered(url) =>
          PostMessageToHost(THUMBNAIL, Text(url));
          intervalActive := false;
          assert outbox == old(outbox) + [Msg(THUMBNAIL, Text(url))];
          assert outbox[..|outbox| - 1] == old(outbox);
        case RenderFailed(_) =>
      }
    }

    /** One firing of the interval: a cleared interval no longer fires, so
        nothing is rasterised or sent; an active one runs `getImage`. */
    method TimerTick(doc: Document, result: Rasterised)
      modifies this`outbox, this`intervalActive, this`rasterisations
      ensures outbox == old(outbox) + (if old(intervalActive) then ThumbnailMessages(doc, result) else [])
      ensures intervalActive == (old(intervalActive) && ThumbnailMessages(doc, result) == [])
      ensures rasterisations == old(rasterisations) + (if old(intervalActive) && PlotHasSize(doc) then 1 else 0)
      ensures old(ThumbnailInvariant()) ==> ThumbnailInvariant()
    {
      if intervalActive {
        GetImage(doc, result);
      }
    }

    /** The `load` handler: `removePlotlyBuiltinExport`, then `initPanZoom`
        (when the pan/zoom library is present, a fresh identity transform and
        `isMove` cleared), then `getImage`. A missing export button under a
        charting-library marker, or an undeclared `panzoom` global, throws
        and ends the handler before anything changes. */
    method OnLoad(panzoom: PanZoomGlobal, doc: Document, result: Rasterised)
      modifies this
      ensures !LoadCompletes(panzoom, doc) ==> unchanged(this)
      ensures LoadCompletes(panzoom, doc) ==>
        && panZoomAttached == (panzoom == Present)
        && outbox == old(outbox) + ThumbnailMessages(doc, result)
        && intervalActive == (old(intervalActive) && ThumbnailMessages(doc, result) == [])
        && rasterisations == old(rasterisations) + (if PlotHasSize(doc) then 1 else 0)
      ensures LoadCompletes(panzoom, doc) && panzoom == Present ==>
        panX == 0.0 && panY == 0.0 && zoom == 1.0 && !isMove && !panZoomClass
      ensures !(LoadCompletes(panzoom, doc) && panzoom == Present) ==>
        panX == old(panX) && panY == old(panY) && zoom == old(zoom)
        && isMove == old(isMove) && panZoomClass == old(panZoomClass)
      ensures old(MoveMarkerInvariant()) ==> MoveMarkerInvariant()
      ensures old(intervalActive) && old(ThumbnailInvariant()) ==> ThumbnailInvariant()
    {
      if RemoveBuiltinExportThrows(doc) {
        return;
      }
      if panzoom == Undeclared {
        return;
      }
      panZoomAttached := panzoom == Present;
      if panzoom == Present {
        panX, panY, zoom := 0.0, 0.0, 1.0;
        isMove := false;
        panZoomClass := false;
      }
      GetImage(doc, result);
    }

    /** A mouse-down or wheel gesture: unless the filter tells the pan/zoom
        library to ignore it, the library moves the transform to the values
        it computes (given here). */
    method OnGesture(altKey: bool, newX: real, newY: real, newZoom: real)
      modifies this`panX, this`panY, this`zoom
      ensures if panZoomAttached && !GestureFilter(altKey)
        then panX == newX && panY == newY && zoom == newZoom
        else panX == old(panX) && panY == old(panY) && zoom == old(zoom)
    {
      if panZoomAttached && !GestureFilter(altKey) {
        panX, panY, zoom := newX, newY, newZoom;
      }
    }

    /** A double-click reaching `resetZoomAndPan` (`altKey` is `None` for a
        call without an event): with Alt held, or with no event, the
        transform returns to pan (0, 0) at zoom 1 whatever it was; an event
        without Alt leaves it unchanged. */
    method OnDoubleClick(altKey: Option<bool>)
      modifies this`panX, this`panY, this`zoom
      ensures panZoomAttached && ResetApplies(altKey) ==>
        panX == 0.0 && panY == 0.0 && zoom == 1.0
      ensures !(panZoomAttached && ResetApplies(altKey)) ==>
        panX == old(panX) && panY == old(panY) && zoom == old(zoom)
    {
      if panZoomAttached {
        if altKey.Some? && !altKey.value {
          return;
        }
        panX, panY := 0.0, 0.0;
        zoom := 1.0;
      }
    }

    /** `keydown` on the body: Alt sets `isMove` and adds `pan-zoom`; any
        other key changes nothing. */
    method OnKeyDown(altKey: bool)
      modifies this`isMove, this`panZoomClass
      ensures panZoomAttached && altKey ==> isMove && panZoomClass
      ensures !(panZoomAttached && altKey) ==> isMove == old(isMove) && panZoomClass == old(panZoomClass)
      ensures old(MoveMarkerInvariant()) ==> MoveMarkerInvariant()
    {
      if panZoomAttached && altKey {
        isMove := true;
        panZoomClass := true;
      }
    }

    /** `keyup` on the body: any key clears a set `isMove` and removes
        `pan-zoom`; with `isMove` clear it changes nothing. */
    method OnKeyUp()
      modifies this`isMove, this`panZoomClass
      ensures panZoomAttached && old(isMove) ==> !isMove && !panZoomClass
      ensures !(panZoomAttached && old(isMove)) ==> isMove == old(isMove) && panZoomClass == old(panZoomClass)
      ensures old(MoveMarkerInvariant()) ==> MoveMarkerInvariant()
    {
      if panZoomAttached && isMove {
        isMove := false;
        panZoomClass := false;
      }
    }

    /** `handlePlotSaveRequest(index)`: sends the save result, if any, as one
        `savePlot` message. */
    method HandlePlotSaveRequest(index: int, doc: Document, env: HostEnvironment)
      modifies this`outbox
      ensures outbox == old(outbox) + SaveMessages(doc, index, env)
    {
      var plot := GetPlotElement(doc);
      if IsPlotly(doc) {
        if env.plotlyUrl.Some? {
          var decoded := env.decode(env.plotlyUrl.value);
          if decoded.Some? {
            var svg := RemoveFirst(decoded.value, SVG_DATA_PREFIX);
            PostMessageToHost(SAVE_PLOT, Export(VectorExport(svg, index)));
          }
        }
      } else if IsSvgTag(doc) {
        var svg := doc.firstSvgMarkup.value;
        PostMessageToHost(SAVE_PLOT, Export(VectorExport(svg, index)));
      } else if plot.src.Some? {
        var payload := RasterPayload(plot.src.value, index, env.decode);
        if payload.Some? {
          PostMessageToHost(SAVE_PLOT, Export(payload.value));
        }
      }
    }

    /** `handlePlotCopyRequest()`: without focus, one `copyFailed` with the
        fixed reason and no rasterisation; with focus, one rasterisation
        (SVG decode or element rasterisation) and the report it leads to. */
    method HandlePlotCopyRequest(doc: Document, inputs: CopyInputs)
      modifies this`outbox, this`rasterisations
      ensures outbox == old(outbox) + CopyMessages(doc, inputs)
      ensures rasterisations == old(rasterisations) + (if doc.hasFocus then 1 else 0)
    {
      if !doc.hasFocus {
        PostMessageToHost(COPY_FAILED, Text(NO_FOCUS_REASON));
        return;
      }
      rasterisations := rasterisations + 1;
      match ChooseCopy(doc)
      case VectorCopy(_) =>
        if inputs.render.Resolved? && inputs.blobProduced {
          ReportWrite(inputs.write);
        }
      case RasterCopy(_) =>
        match inputs.render
        case Rejected(reason) =>
          PostMessageToHost(COPY_FAILED, reason);
        case Silent =>
        case Resolved =>
          if inputs.blobProduced {
            ReportWrite(inputs.write);
          }
    }

    /** The clipboard write's `then`/`catch`. */
    method ReportWrite(write: Settlement)
      modifies this`outbox
      ensures outbox == old(outbox) + WriteReport(write)
    {
      match write
      case Resolved => PostMessageToHost(COPY_SUCCESS, Undefined);
      case Rejected(err) => PostMessageToHost(COPY_FAILED, err);
      case Silent =>
    }

    /** The `message` listener: `requestSavePlot` runs the save handler with
        `data.body.index` (a missing body throws before it runs),
        `requestCopyPlot` runs the copy handler, and any other type is only
        logged. Neither handler sends a thumbnail, so the thumbnail invariant
        is kept. */
    method OnMessage(data: Request, doc: Document, env: HostEnvironment)
      modifies this`outbox, this`rasterisations
      ensures data.kind == REQUEST_SAVE_PLOT && data.body.Some? ==>
        outbox == old(outbox) + SaveMessages(doc, data.body.value.index, env)
        && rasterisations == old(rasterisations)
      ensures data.kind == REQUEST_COPY_PLOT ==>
        outbox == old(outbox) + CopyMessages(doc, env.copy)
        && rasterisations == old(rasterisations) + (if doc.hasFocus then 1 else 0)
      ensures (data.kind == REQUEST_SAVE_PLOT && data.body.None?)
              || (data.kind != REQUEST_SAVE_PLOT && data.kind != REQUEST_COPY_PLOT) ==>
        outbox == old(outbox) && rasterisations == old(rasterisations)
      ensures ThumbnailInvariant() == old(ThumbnailInvariant())
    {
      if data.kind == REQUEST_SAVE_PLOT {
        if data.body.Some? {
          HandlePlotSaveRequest(data.body.value.index, doc, env);
          KeepsThumbnailCount(old(outbox), SaveMessages(doc, data.body.value.index, env));
        }
      } else if data.kind == REQUEST_COPY_PLOT {
        HandlePlotCopyRequest(doc, env.copy);
        KeepsThumbnailCount(old(outbox), CopyMessages(doc, env.copy));
      }
    }
  }

  /** Appending messages that are not thumbnails keeps the thumbnail count. */
  lemma KeepsThumbnailCount(before: seq<Msg>, sent: seq<Msg>)
    requires forall m :: m in sent ==> m.kind != THUMBNAIL
    ensures CountOf(before + sent, THUMBNAIL) == CountOf(before, THUMBNAIL)
  {
    CountOfAppend(before, sent, THUMBNAIL);
    NoneOfKind(sent, THUMBNAIL);
  }

  /** A sequence with no message of a type counts zero of it. */
  lemma {:induction false} NoneOfKind(msgs: seq<Msg>, kind: string)
    requires forall m :: m in msgs ==> m.kind != kind
    ensures CountOf(msgs, kind) == 0
    decreases |msgs|
  {
    if msgs != [] {
      NoneOfKind(msgs[..|msgs| - 1], kind);
    }
  }
}
