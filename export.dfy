/** `handlePlotSaveRequest`: which `savePlot` payload, if any, a save request
    produces. The charting library's snapshot URL and `decodeURIComponent`
    are inputs: `plotlyUrl` is the URL its `success` event delivers (`None`
    when that event never fires), and `decode` returns `None` where
    `decodeURIComponent` throws. */
module Export {
  import opened Strings
  import opened Page
  import opened Protocol

  // The literal patterns removed from data URLs (section 3 of RFC 2397:
  // `data:<mediatype>[;base64],<data>`).
  const SVG_DATA_PREFIX := "data:image/svg+xml,"
  const PNG_DATA_PREFIX := "data:image/png;base64,"
  const GIF_DATA_PREFIX := "data:image/gif;base64,"

  // The substrings that select which payload fields are filled.
  const SVG_MIME := "image/svg"
  const PNG_MIME := "image/png"
  const GIF_MIME := "image/gif"

  /** `decodeURIComponent(url).replace(/data:image\/svg\+xml,/, '')`, or
      `None` when decoding throws. */
  function SvgMarkupOf(url: string, decode: string -> Option<string>): Option<string>
  {
    match decode(url)
    case None => None
    case Some(text) => Some(RemoveFirst(text, SVG_DATA_PREFIX))
  }

  /** The raster branch's `{svg, png, gif, index}` for a plot whose `src` is
      a string, or `None` when decoding the SVG case throws (which aborts the
      handler before anything is sent). */
  function RasterPayload(src: string, index: int, decode: string -> Option<string>): Option<ExportResult>
  {
    if Includes(src, SVG_MIME) && decode(src).None? then None
    else
      var svg := if Includes(src, SVG_MIME) then SvgMarkupOf(src, decode) else None;
      var png := if Includes(src, PNG_MIME) then Some(RemoveFirst(src, PNG_DATA_PREFIX)) else None;
      var gif := if Includes(src, GIF_MIME) then Some(RemoveFirst(src, GIF_DATA_PREFIX)) else None;
      Some(RasterExport(svg, png, gif, index))
  }

  /** Each raster field is filled exactly when its MIME substring occurs in
      `src`, and then holds `src` (decoded, for SVG) with the first copy of
      its data-URL prefix removed; the only failure is a decoding error in
      the SVG case. */
  lemma RasterPayloadFields(src: string, index: int, decode: string -> Option<string>)
    ensures RasterPayload(src, index, decode).None? <==> Includes(src, SVG_MIME) && decode(src).None?
    ensures RasterPayload(src, index, decode).Some? ==>
      var r := RasterPayload(src, index, decode).value;
      && r.RasterExport?
      && r.index == index
      && (r.png.Some? <==> Includes(src, PNG_MIME))
      && (r.png.Some? ==> r.png.value == RemoveFirst(src, PNG_DATA_PREFIX))
      && (r.gif.Some? <==> Includes(src, GIF_MIME))
      && (r.gif.Some? ==> r.gif.value == RemoveFirst(src, GIF_DATA_PREFIX))
      && (r.svg.Some? <==> Includes(src, SVG_MIME))
      && (r.svg.Some? ==> r.svg.value == RemoveFirst(decode(src).value, SVG_DATA_PREFIX))
  {
  }

  /** Wherever the first character of an `image/...` substring occurs in the
      PNG or GIF prefix (the `i` of `image` and, for GIF, of `gif`), the rest
      of the substring fails to follow within the prefix. */
  lemma MimeAbsentFromRasterPrefix(prefix: string, mime: string)
    requires prefix == PNG_DATA_PREFIX || prefix == GIF_DATA_PREFIX
    requires mime in {SVG_MIME, PNG_MIME, GIF_MIME}
    requires !(prefix == PNG_DATA_PREFIX && mime == PNG_MIME)
    requires !(prefix == GIF_DATA_PREFIX && mime == GIF_MIME)
    ensures forall j :: 0 <= j < |prefix| && prefix[j] == mime[0] ==>
      exists k :: 0 < k < |mime| && j + k < |prefix| && prefix[j + k] != mime[k]
  {
    forall j | 0 <= j < |prefix| && prefix[j] == mime[0]
      ensures exists k :: 0 < k < |mime| && j + k < |prefix| && prefix[j + k] != mime[k]
    {
      if prefix == PNG_DATA_PREFIX {
        assert j == 5;
      } else {
        assert j == 5 || j == 12;
      }
      if j == 5 {
        assert prefix[j + 6] != mime[6];
      } else {
        assert prefix[j + 1] != mime[1];
      }
    }
  }

  /** Each raster prefix names its own MIME type at position 5. */
  lemma PrefixNamesMime()
    ensures OccursAt(PNG_DATA_PREFIX, PNG_MIME, 5) && OccursAt(GIF_DATA_PREFIX, GIF_MIME, 5)
  {
  }

  /** Round trip for PNG: the raster payload of a base64 PNG data URL carries
      exactly the base64 data in `png` and `null` in the other two fields,
      provided the data itself does not spell out another MIME substring. */
  lemma PngDataUrlRoundTrip(data: string, index: int, decode: string -> Option<string>)
    requires !Includes(data, SVG_MIME) && !Includes(data, GIF_MIME)
    ensures RasterPayload(PNG_DATA_PREFIX + data, index, decode)
            == Some(RasterExport(None, Some(data), None, index))
  {
    var src := PNG_DATA_PREFIX + data;
    MimeAbsentFromRasterPrefix(PNG_DATA_PREFIX, SVG_MIME);
    AbsentFromPrefixed(PNG_DATA_PREFIX, data, SVG_MIME);
    MimeAbsentFromRasterPrefix(PNG_DATA_PREFIX, GIF_MIME);
    AbsentFromPrefixed(PNG_DATA_PREFIX, data, GIF_MIME);
    RemoveFirstOfPrefixed(PNG_DATA_PREFIX, data);
    PrefixNamesMime();
    IncludesPart(src, PNG_DATA_PREFIX, PNG_MIME);
  }

  /** Round trip for GIF, as for PNG. */
  lemma GifDataUrlRoundTrip(data: string, index: int, decode: string -> Option<string>)
    requires !Includes(data, SVG_MIME) && !Includes(data, PNG_MIME)
    ensures RasterPayload(GIF_DATA_PREFIX + data, index, decode)
            == Some(RasterExport(None, None, Some(data), index))
  {
    var src := GIF_DATA_PREFIX + data;
    MimeAbsentFromRasterPrefix(GIF_DATA_PREFIX, SVG_MIME);
    AbsentFromPrefixed(GIF_DATA_PREFIX, data, SVG_MIME);
    MimeAbsentFromRasterPrefix(GIF_DATA_PREFIX, PNG_MIME);
    AbsentFromPrefixed(GIF_DATA_PREFIX, data, PNG_MIME);
    RemoveFirstOfPrefixed(GIF_DATA_PREFIX, data);
    PrefixNamesMime();
    IncludesPart(src, GIF_DATA_PREFIX, GIF_MIME);
  }

  /** `data:image/png;base64,AAAA` with index 3 gives
      `{svg: null, png: "AAAA", gif: null, index: 3}`. */
  lemma PngExample(decode: string -> Option<string>)
    ensures RasterPayload("data:image/png;base64,AAAA", 3, decode)
            == Some(RasterExport(None, Some("AAAA"), None, 3))
  {
    assert !Includes("AAAA", SVG_MIME) && !Includes("AAAA", GIF_MIME);
    PngDataUrlRoundTrip("AAAA", 3, decode);
    assert PNG_DATA_PREFIX + "AAAA" == "data:image/png;base64,AAAA";
  }

  /** The payload a save request sends, if any, following the export
      precedence: the charting library's snapshot (only once its `success`
      event has delivered a URL), else the first `<svg>`'s markup, else the
      located element's `src`. A located element without a `src` makes
      `src.includes` throw, so nothing is sent. */
  function SaveResult(doc: Document, index: int, plotlyUrl: Option<string>,
                      decode: string -> Option<string>): (r: Option<ExportResult>)
    ensures r.Some? ==> r.value.index == index
    ensures r.Some? ==> (r.value.RasterExport? <==> ChooseExport(doc) == RasterSrc)
    ensures ChooseExport(doc) == PlotlySnapshot && plotlyUrl.None? ==> r.None?
    ensures ChooseExport(doc) == InlineSvg ==> r == Some(VectorExport(doc.firstSvgMarkup.value, index))
  {
    match ChooseExport(doc)
    case PlotlySnapshot =>
      (match plotlyUrl
       case None => None
       case Some(url) =>
         match SvgMarkupOf(url, decode)
         case None => None
         case Some(svg) => Some(VectorExport(svg, index)))
    case InlineSvg => Some(VectorExport(doc.firstSvgMarkup.value, index))
    case RasterSrc =>
      match GetPlotElement(doc).src
      case None => None
      case Some(src) => RasterPayload(src, index, decode)
  }

  /** A save request sends its one `savePlot` payload in every case except
      three: the charting library never reports success, decoding throws, or
      the raster path finds no `src`. */
  lemma SaveResultPresent(doc: Document, index: int, plotlyUrl: Option<string>,
                          decode: string -> Option<string>)
    ensures SaveResult(doc, index, plotlyUrl, decode).None? <==>
      match ChooseExport(doc)
      case PlotlySnapshot => plotlyUrl.None? || decode(plotlyUrl.value).None?
      case InlineSvg => false
      case RasterSrc =>
        GetPlotElement(doc).src.None?
        || (Includes(GetPlotElement(doc).src.value, SVG_MIME) && decode(GetPlotElement(doc).src.value).None?)
  {
  }

  /** Round trip through the charting library: when its snapshot URL decodes
      to the SVG data-URL prefix followed by some markup, the save request
      sends exactly that markup with the caller's index. */
  lemma PlotlySnapshotRoundTrip(doc: Document, index: int, url: string, markup: string,
                                decode: string -> Option<string>)
    requires IsPlotly(doc)
    requires decode(url) == Some(SVG_DATA_PREFIX + markup)
    ensures SaveResult(doc, index, Some(url), decode) == Some(VectorExport(markup, index))
  {
    RemoveFirstOfPrefixed(SVG_DATA_PREFIX, markup);
  }
}
