# Plot webview: locator, export, copy and navigation state machine

This project models the script that runs inside the plot pane's webview
(`scripts/plots/main_plot_webview.js`). The script renders nothing itself. It
finds the plot element, sends a thumbnail to the host, answers the host's
`requestSavePlot` and `requestCopyPlot` messages, and gates pan/zoom gestures
behind the Alt key.

The DOM becomes an explicit snapshot, `Page.Document`. It records:

- the body;
- the `#plot-element` container, with its first `<canvas>` and whether it holds
  a `.plotly` marker;
- the `outerHTML` of the first `<svg>` anywhere in the document;
- whether the charting library's "Download plot as a png" button exists;
- whether the document has focus.

Each element records its `src` (absent where JavaScript gives `undefined`)
and its `offsetWidth` and `offsetHeight`. The host transport is the
`outbox` sequence of `Webview.PlotWebview`: `postMessageToHost` appends to it.
Results that arrive asynchronously are parameters of the handlers:

- the rasteriser's outcome;
- the URL from the charting library's snapshot `success` event;
- the image load, `toBlob` and clipboard write outcomes;
- `decodeURIComponent`, given as a function that returns `None` where it
  throws.

Modules:

- `Strings`: `includes` and `replace` with a literal pattern. `IndexOf` finds
  the leftmost occurrence; `RemoveFirst` removes it.
- `Page`: the snapshot, `getPlotElement`, `isPlotly`, `isSvgTag`, and the
  export and copy branch choices.
- `Protocol`: the message types, payloads, inbound requests and
  `postMessageToHost`'s guard.
- `Export`: the `savePlot` payload of `handlePlotSaveRequest`.
- `Clipboard`: what `handlePlotCopyRequest` reports.
- `Webview`: the class holding the interval, the pan/zoom transform, `isMove`,
  the `pan-zoom` class and the outbox, with one method per event.

Behaviour of the code worth spelling out:

- Double-click resets pan and zoom only when Alt is held, or when
  `resetZoomAndPan` is called without an event (lines 187-189).
  `Webview.ResetApplies` is that gate.
- `beforeMouseDown` and `beforeWheel` return `!ev.altKey` (lines 179-184).
  The pan/zoom library's filter convention is "return `true` to ignore the
  gesture", so gestures are acted on only with Alt held, the same gate as the
  reset (`Webview.GatesAgree`). `Webview.GestureFilter` is the filter's
  value, and `OnGesture` assumes that "true means ignore" convention.
- A save request sends nothing in three cases:
  - the charting library's snapshot never succeeds;
  - `decodeURIComponent` throws;
  - on the raster path, the located element has no `src`, so `src.includes`
    throws (for example a `<div>` container or the body).
- A copy request with focus sends nothing in four cases:
  - on the vector path, the image never loads (there is no `onerror`);
  - on the raster path, the rasteriser's promise never settles or
    `html2canvas` throws;
  - `toBlob` yields `null`;
  - the clipboard promise never settles.
- The `load` handler stops before `initPanZoom` and `getImage` when
  `removePlotlyBuiltinExport` finds a `.plotly` marker but no export button
  (it sets a style on `null`, lines 162-166), or when the `panzoom` global is
  not declared at all (line 171).
- The at-most-one-thumbnail guarantee is proved only for a load that runs
  while the interval is still active. If a timer tick has already sent a
  thumbnail, the load-time call can send a second one.

## Model

| member | source | states |
|---|---|---|
| `Strings.IndexOf` | scripts/plots/main_plot_webview.js:81-88 | `IndexOf`: the position it returns is an occurrence of the pattern with none earlier; `None` means the pattern occurs nowhere |
| `Strings.IncludesIffOccurs` | scripts/plots/main_plot_webview.js:81-87 | `Includes` (`includes`) holds exactly when the pattern occurs at some position |
| `Strings.RemoveFirstShape` | scripts/plots/main_plot_webview.js:82-88 | `RemoveFirst` (`replace(/p/, '')`) leaves a string without `p` unchanged; otherwise it removes exactly the leftmost occurrence (none occurs earlier), and the result is `|p|` shorter |
| `Strings.RemoveFirstOfPrefixed` | scripts/plots/main_plot_webview.js:82-88 | stripping a prefix from `prefix + data` gives back `data`, even when `data` contains the prefix again |
| `Strings.IncludesPart` | scripts/plots/main_plot_webview.js:81-87 | a string containing a data-URL prefix also contains every substring of it, such as its MIME type |
| `Strings.AbsentFromPrefixed` | scripts/plots/main_plot_webview.js:81-87 | a pattern that cannot start inside the prefix and is absent from the data is absent from `prefix + data` |
| `Page.FirstPresent` | scripts/plots/main_plot_webview.js:14-22 | a prioritized list of strategies yields the first candidate that is present, or the fallback when none is |
| `Page.GetPlotElementFallbackOrder` | scripts/plots/main_plot_webview.js:14-22 | `GetPlotElement` follows the order canvas, container, body: body without `#plot-element`, else the first canvas, else the container |
| `Page.IsPlotly` | scripts/plots/main_plot_webview.js:45-47 | a charting-library marker is only found inside `#plot-element` |
| `Page.ChooseExportPrecedence` | scripts/plots/main_plot_webview.js:66-92 | `ChooseExport` orders the export as charting library, then any `<svg>` (`IsSvgTag`), then raster `src`; each branch is taken exactly when the ones before it do not apply |
| `Page.ChooseCopy` | scripts/plots/main_plot_webview.js:96-97 | copy takes the vector path exactly when an `<svg>` exists anywhere, using its markup; otherwise it rasterises the located plot element |
| `Protocol.Posted` | scripts/plots/main_plot_webview.js:5-12 | `postMessageToHost` sends at most one message, none exactly when the type is falsy, and that message carries the given type and value |
| `Protocol.CountOfAppend` | scripts/plots/main_plot_webview.js:5-12 | per-type message counts add up over appends to the outbox |
| `Export.RasterPayloadFields` | scripts/plots/main_plot_webview.js:79-91 | `RasterPayload`: `png`, `gif` and `svg` are each non-null exactly when `src` contains `image/png`, `image/gif` or `image/svg`. A filled field holds `src` (decoded, for svg) with the first data-URL prefix removed. The index is unchanged. The only failure is a decode error in the svg case |
| `Export.MimeAbsentFromRasterPrefix` | scripts/plots/main_plot_webview.js:84-89 | no `image/...` substring other than its own can start inside the PNG or GIF data-URL prefix |
| `Export.PngDataUrlRoundTrip` | scripts/plots/main_plot_webview.js:79-91 | a base64 PNG data URL exports as `{svg: null, png: <its data>, gif: null, index}`, provided the data contains neither `image/svg` nor `image/gif` (base64 data may contain `/`) |
| `Export.GifDataUrlRoundTrip` | scripts/plots/main_plot_webview.js:79-91 | a base64 GIF data URL exports as `{svg: null, png: null, gif: <its data>, index}`, provided the data contains neither `image/svg` nor `image/png` (base64 data may contain `/`) |
| `Export.PngExample` | scripts/plots/main_plot_webview.js:79-91 | `data:image/png;base64,AAAA` with index 3 yields `{svg: null, png: "AAAA", gif: null, index: 3}` |
| `Export.SaveResult` | scripts/plots/main_plot_webview.js:66-93 | any payload carries the caller's index unchanged. It is a raster payload exactly on the raster branch. Nothing comes from the charting library without its `success` event. The inline-SVG branch always yields the first `<svg>`'s markup |
| `Export.SaveResultPresent` | scripts/plots/main_plot_webview.js:66-93 | a save request yields no payload exactly when the snapshot never succeeds, decoding throws, or the raster branch finds no `src` |
| `Export.PlotlySnapshotRoundTrip` | scripts/plots/main_plot_webview.js:68-73 | a snapshot URL that decodes to the SVG data-URL prefix plus some markup exports exactly that markup with the caller's index |
| `Clipboard.CopyMessages` | scripts/plots/main_plot_webview.js:95-156 | a copy sends at most one message, always `copySuccess` or `copyFailed`. Without focus it sends exactly `copyFailed` with "Plot pane does not have focus.". It sends `copySuccess` exactly when focus, render, blob and clipboard write all succeed. With focus it sends nothing exactly when: on the vector path the image does not load, the blob is `null` or the write never settles; on the raster path the rasteriser never settles, or it resolves and then the blob is `null` or the write never settles |
| `Clipboard.NoFocusIgnoresPipeline` | scripts/plots/main_plot_webview.js:102-105 | without focus, the outcome does not depend on any rasterisation or clipboard result |
| `Clipboard.WriteFailureReported` | scripts/plots/main_plot_webview.js:122-131 | a rejected clipboard write is reported as `copyFailed` carrying the write's reason, on both paths |
| `Clipboard.RenderFailureByPath` | scripts/plots/main_plot_webview.js:107-154 | a failed render is silent on the vector path and reported as `copyFailed` with its reason on the raster path |
| `Webview.SaveMessages` | scripts/plots/main_plot_webview.js:66-93 | a save request sends at most one message. It is a `savePlot` carrying the caller's index, and the inline-SVG branch always sends one |
| `Webview.ThumbnailMessages` | scripts/plots/main_plot_webview.js:24-43 | `getImage` sends a thumbnail exactly when the plot has nonzero width and height and rasterisation succeeds: one `thumbnail` carrying the PNG data URL |
| `Webview.GatesAgree` | scripts/plots/main_plot_webview.js:179-195 | `GestureFilter` lets a gesture through exactly when `ResetApplies` would reset a double-click: on Alt. A call without an event always resets |
| `Webview.PlotWebview.constructor` | scripts/plots/main_plot_webview.js:238 | the script starts with the interval active, nothing sent, no `isMove`, and the identity transform |
| `Webview.PlotWebview.PostMessageToHost` | scripts/plots/main_plot_webview.js:5-12 | the outbox grows by what `Posted` allows and by nothing else |
| `Webview.PlotWebview.GetImage` | scripts/plots/main_plot_webview.js:24-43 | zero size sends nothing and keeps the interval. Success sends one thumbnail and clears the interval. Failure sends nothing and keeps it. The thumbnail invariant is kept |
| `Webview.PlotWebview.TimerTick` | scripts/plots/main_plot_webview.js:238 | one firing of the interval set up here: a cleared interval (`clearInterval`, lines 32-34) never rasterises or sends again. An active one runs `getImage`. No thumbnail while active, exactly one once cleared |
| `Webview.PlotWebview.OnLoad` | scripts/plots/main_plot_webview.js:161-222 | a load that throws (a `.plotly` marker without the export button, or an undeclared `panzoom`) changes no state. Otherwise pan/zoom is attached exactly when the library is present, with pan (0, 0), zoom 1 and `isMove` clear, and `getImage` runs: the outbox gains its thumbnail messages, the interval clears exactly when one is sent, and one rasterisation starts exactly when the plot has a size |
| `Webview.PlotWebview.OnGesture` | scripts/plots/main_plot_webview.js:179-184 | a mouse-down or wheel gesture moves the transform only when the filter does not ask to ignore it |
| `Webview.PlotWebview.OnDoubleClick` | scripts/plots/main_plot_webview.js:186-195 | with Alt held or without an event, the transform becomes pan (0, 0) and zoom 1 whatever it was. An event without Alt changes nothing |
| `Webview.PlotWebview.OnKeyDown` | scripts/plots/main_plot_webview.js:204-209 | Alt keydown sets `isMove` and adds `pan-zoom`. Any other keydown changes neither. `isMove` and the class stay in step |
| `Webview.PlotWebview.OnKeyUp` | scripts/plots/main_plot_webview.js:210-215 | any keyup while `isMove` clears it and removes `pan-zoom`. Keyup while it is clear changes nothing |
| `Webview.PlotWebview.HandlePlotSaveRequest` | scripts/plots/main_plot_webview.js:66-93 | the outbox grows by exactly the save request's messages |
| `Webview.PlotWebview.HandlePlotCopyRequest` | scripts/plots/main_plot_webview.js:95-156 | the outbox grows by exactly the copy report. One rasterisation starts with focus, none without |
| `Webview.PlotWebview.ReportWrite` | scripts/plots/main_plot_webview.js:127-131 | clipboard success sends `copySuccess`, a rejection sends `copyFailed` with its reason |
| `Webview.PlotWebview.OnMessage` | scripts/plots/main_plot_webview.js:225-236 | `requestSavePlot` runs the save handler with `data.body.index`, and `requestCopyPlot` the copy handler, which starts one rasterisation with focus and none without. Any other type, or a save request without a body, sends nothing and changes no state. The thumbnail invariant is untouched |
| `Webview.KeepsThumbnailCount` | scripts/plots/main_plot_webview.js:225-236 | appending save or copy messages leaves the number of thumbnails sent unchanged |
| `Webview.NoneOfKind` | scripts/plots/main_plot_webview.js:5-12 | an outbox segment without messages of a type counts zero of that type |

## Left out

- html2canvas, the charting library's `Snapshot.toImage`, the pan/zoom
  library, `XMLSerializer`, `Blob`, `Image`, canvas drawing,
  `URL.createObjectURL` and `navigator.clipboard` are foreign code. Only
  their outcomes enter the model, as parameters.
- `decodeURIComponent` is an opaque function parameter (`None` where it
  throws). Its decoding is not modelled.
- `acquireVsCodeApi` and `vscode.postMessage` are the `outbox` sequence.
- The vector copy path's serialized markup, blob MIME type and canvas size
  are not carried. Only the outcome of the pipeline is.
- The wiring of the three `dblclick` listeners and `stopPropagation` is DOM
  event dispatch. `OnDoubleClick` is one call of `resetZoomAndPan`.
- The `load` listener's registration and the 1000 ms scheduling are left
  out. `OnLoad` and `TimerTick` are the events themselves, in whatever order
  a caller applies them.
- Overlapping asynchronous callbacks are event-loop interleaving and are not
  modelled. For example, two thumbnail ticks can both resolve before
  `clearInterval`. Each handler completes in one step.
- `removePlotlyBuiltinExport`'s style change is not modelled; only whether
  it throws is. `console.error` logging is left out.
- `Webview.PlotWebview.OnGesture`: how the pan/zoom library turns a gesture
  into a new transform is not modelled. The new transform is a parameter.
- `Protocol.Posted`: JavaScript falsiness is reduced to the empty string.
  Every caller passes a constant, non-empty type.
- `Webview.PlotWebview.OnLoad`: the thumbnail invariant is stated only for a
  load that runs while the interval is still active (see above).
- Element sizes are integers and the pan/zoom transform is real-valued.
  Floating-point rounding is not modelled.
- The request `index` is an integer. JavaScript would pass any value
  through unchanged.
