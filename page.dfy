/** The document as the webview script sees it: an explicit snapshot of the
    few DOM facts the script queries, the plot locator and the
    representation classifier. Every query is re-evaluated on the snapshot
    it is given; nothing is cached. */
module Page {
  import opened Strings

  /** The parts of an HTML element the script reads. `src` is `None` for an
      element that has no `src` property (a `<div>`, a `<canvas>`, the body),
      where JavaScript yields `undefined`. */
  datatype Element = Element(src: Option<string>, offsetWidth: int, offsetHeight: int)

  /** The element with id `plot-element`: itself, its first `<canvas>`
      descendant if any, and whether a descendant carries the charting
      library's `plotly` class. */
  datatype Container = Container(self: Element, firstCanvas: Option<Element>, hasPlotlyMarker: bool)

  /** `firstSvgMarkup` is the `outerHTML` of the first `<svg>` anywhere in the
      document (not necessarily inside the plot container);
      `hasPlotlyExportButton` is whether an element with
      `data-title="Download plot as a png"` exists. */
  datatype Document = Document(
    body: Element,
    plotContainer: Option<Container>,
    firstSvgMarkup: Option<string>,
    hasPlotlyExportButton: bool,
    hasFocus: bool)

  /** The first present candidate, in order, or the fallback when none is. */
  function FirstPresent<T>(candidates: seq<Option<T>>, fallback: T): (r: T)
    ensures (forall i :: 0 <= i < |candidates| ==> candidates[i].None?) ==> r == fallback
    ensures forall i :: 0 <= i < |candidates| && candidates[i].Some? ==>
      (forall j :: 0 <= j < i ==> candidates[j].None?) ==> r == candidates[i].value
    ensures r == fallback || exists i :: 0 <= i < |candidates| && candidates[i] == Some(r)
  {
    if candidates == [] then fallback
    else if candidates[0].Some? then candidates[0].value
    else
      var r := FirstPresent(candidates[1..], fallback);
      assert forall i :: 1 <= i < |candidates| ==> candidates[i] == candidates[1..][i - 1];
      r
  }

  /** `getPlotElement()`: the container's first canvas, else the container,
      else the document body. */
  function GetPlotElement(doc: Document): Element
  {
    match doc.plotContainer
    case None => doc.body
    case Some(c) =>
      match c.firstCanvas
      case Some(canvas) => canvas
      case None => c.self
  }

  /** The locator's strategies, in the order they are tried. */
  function LocatorStrategies(doc: Document): seq<Option<Element>>
  {
    [ if doc.plotContainer.Some? then doc.plotContainer.value.firstCanvas else None,
      if doc.plotContainer.Some? then Some(doc.plotContainer.value.self) else None ]
  }

  /** The locator is the fixed fallback order canvas, container, body: with
      no container it yields the body, with a canvas inside the container the
      first canvas, otherwise the container itself. */
  lemma GetPlotElementFallbackOrder(doc: Document)
    ensures GetPlotElement(doc) == FirstPresent(LocatorStrategies(doc), doc.body)
    ensures doc.plotContainer.None? ==> GetPlotElement(doc) == doc.body
    ensures doc.plotContainer.Some? && doc.plotContainer.value.firstCanvas.Some? ==>
      GetPlotElement(doc) == doc.plotContainer.value.firstCanvas.value
    ensures doc.plotContainer.Some? && doc.plotContainer.value.firstCanvas.None? ==>
      GetPlotElement(doc) == doc.plotContainer.value.self
  {
  }

  /** `isPlotly()`: a `.plotly` element inside `#plot-element`. */
  function IsPlotly(doc: Document): (b: bool)
    ensures b ==> doc.plotContainer.Some?
  {
    doc.plotContainer.Some? && doc.plotContainer.value.hasPlotlyMarker
  }

  /** `removePlotlyBuiltinExport()` throws: with a charting-library marker it
      sets the style of the export button, and a missing button is `null`. */
  predicate RemoveBuiltinExportThrows(doc: Document)
  {
    IsPlotly(doc) && !doc.hasPlotlyExportButton
  }

  /** `isSvgTag()`: an `<svg>` anywhere in the document. */
  function IsSvgTag(doc: Document): bool
  {
    doc.firstSvgMarkup.Some?
  }

  /** How a save request exports the plot. */
  datatype ExportStrategy = PlotlySnapshot | InlineSvg | RasterSrc

  /** `handlePlotSaveRequest`'s branch: charting library first, then any
      `<svg>`, then the located element's `src`. */
  function ChooseExport(doc: Document): ExportStrategy
  {
    if IsPlotly(doc) then PlotlySnapshot
    else if IsSvgTag(doc) then InlineSvg
    else RasterSrc
  }

  /** The export precedence as a prioritized list: a charting-library marker
      wins over any `<svg>`, which wins over the raster `src`; and the raster
      path is taken exactly when neither of the others applies. */
  lemma ChooseExportPrecedence(doc: Document)
    ensures ChooseExport(doc) == FirstPresent(
      [ if IsPlotly(doc) then Some(PlotlySnapshot) else None,
        if IsSvgTag(doc) then Some(InlineSvg) else None ],
      RasterSrc)
    ensures IsPlotly(doc) ==> ChooseExport(doc) == PlotlySnapshot
    ensures ChooseExport(doc) == InlineSvg <==> !IsPlotly(doc) && IsSvgTag(doc)
    ensures ChooseExport(doc) == RasterSrc <==> !IsPlotly(doc) && !IsSvgTag(doc)
  {
  }

  /** How a copy request rasterises the plot. */
  datatype CopyStrategy = VectorCopy(markup: string) | RasterCopy(plot: Element)

  /** `handlePlotCopyRequest`'s branch: any `<svg>` in the document is used
      in preference to the located plot element; the charting-library marker
      plays no part here. */
  function ChooseCopy(doc: Document): (s: CopyStrategy)
    ensures s.VectorCopy? <==> IsSvgTag(doc)
    ensures s.VectorCopy? ==> Some(s.markup) == doc.firstSvgMarkup
    ensures s.RasterCopy? ==> s.plot == GetPlotElement(doc)
  {
    match doc.firstSvgMarkup
    case Some(m) => VectorCopy(m)
    case None => RasterCopy(GetPlotElement(doc))
  }
}
