# NRW AOI Studio: workspace state machine in Dafny

This project models the state engine inside the map workspace component
`App.jsx`. A user picks one of four tiled basemaps, fades a WMS orthophoto
overlay in, draws or imports areas of interest (AOIs), searches for a place,
and exports the AOIs as GeoJSON or the view as a PNG.

The rendering library is removed, and each event handler becomes a pure
function on an immutable `Workspace` record. The record holds:

- the basemap registry: each basemap's opacity, the active basemap, the
  highlighted key, and the set of basemaps attached to the map;
- the overlay: attached or not, and its opacity; also the opacity state hook;
- the AOI collection, in insertion order;
- at most one search marker;
- the upload-busy flag;
- the status text (last writer wins);
- the map container's `willChange` style.

A handler returns a `Step`: the new workspace plus the calls it made into
collaborators. Those calls are attaching a layer, sending a geocoding request,
flying or fitting the view, reading the archive, rasterising the view, or
starting a download. This is how the model states "no request for a blank
query", "the overlay is attached once" and "the download holds every AOI".

The asynchronous handlers are split at their `await` points:

- search: submit, then resolve;
- upload: choose a file, then settle;
- screenshot: begin, then settle.

Each one also has an atomic composite (`Search`, `Upload`, `Screenshot`).
Outcomes from outside are parameters of the second phase:

- the geocoder's answer;
- the shapefile conversion's result;
- whether `fitBounds` succeeded;
- the rasteriser's result;
- `Date.now()`.

`Controller.Next` sends each event to its handler. `Controller.Run` folds a
sequence of events, so the two phases of different handlers can interleave.

Modules: `Wrappers` (Option), `Text` (ECMAScript `trim`, decimal rendering),
`Geo` (GeoJSON features), `Basemaps` (registry), `WorkspaceState` (record,
effects, invariant, mounted state), `LayerHandlers`, `AoiHandlers`,
`SearchHandler`, `ScreenshotHandler` and `Controller`.

The central invariant is `WorkspaceState.Valid`. It holds at mount and is kept
by every handler:

- exactly one basemap has opacity 1 and it is the active one;
- every other basemap has opacity 0;
- the active basemap is attached and highlighted;
- the overlay's opacity equals the opacity state.

## Model

| member | source | states |
|---|---|---|
| WorkspaceState.Init | App.jsx:39-118 | After mount, OpenStreetMap is the only visible basemap and the only one attached; light, dark and topo are at 0. The overlay is detached at 0. There are no AOIs, no marker, and the workspace is not busy. Status is "Map ready". The invariant holds. |
| Basemaps.Lookup | App.jsx:53-58 | The registry finds a basemap for a key exactly when the key is that basemap's name, so it is the inverse of `Key`. |
| Basemaps.Initial | App.jsx:53-61 | The initial registry satisfies the invariant. Exactly OpenStreetMap is visible, and only it is attached. |
| Basemaps.Switch | App.jsx:137-144 | The old basemap goes to 0 and the new one to 1. Every other basemap keeps its opacity. The new basemap is added to the attached set. The invariant is preserved. |
| Basemaps.ExactlyOneVisible | App.jsx:141-144 | Under the invariant, the set of basemaps at opacity 1 is exactly the active one, and all the others are at 0. |
| LayerHandlers.BasemapChange | App.jsx:133-147 | The workspace and effects stay unchanged if and only if the key is unknown or already active. On a switch: the key becomes active and selected; the status is "Basemap: key"; the attached set gains exactly that basemap; the only call is one attach call, made only if it was detached; it goes to 1, the old one to 0, and every other basemap keeps its opacity. AOIs, marker, overlay and busy flag are unchanged. The invariant is kept. |
| LayerHandlers.OpacityChange | App.jsx:120-131 | Afterwards the overlay is attached. Its opacity and the opacity state both equal the unclamped value. An attach call happens exactly when the overlay was detached. Registry, AOIs, marker and status are unchanged. |
| LayerHandlers.OpacityAttachesOnce | App.jsx:126-128 | A second opacity change makes no attach call, and the overlay takes the new value. |
| AoiHandlers.DrawCreated | App.jsx:101-104 | Appends exactly the drawn feature at the end. Every earlier AOI keeps its place. Status becomes "AOI added". Layers and marker are unchanged. |
| AoiHandlers.UploadSelect | App.jsx:189-194 | While busy (the input is disabled, App.jsx:302), or with no file chosen, nothing changes and no call is made. Otherwise the workspace becomes busy, the status is "Loading shapefile…", and the file is read. |
| AoiHandlers.UploadSettle | App.jsx:196-210 | Busy is cleared on every path. A decode failure leaves the AOIs unchanged, with status "Upload failed". Decoded features are appended after the existing AOIs before the fit. The status is "Shapefile loaded" only when at least one feature was decoded and the fit succeeds; otherwise it is "Upload failed", and the features stay either way. An empty import therefore always reports "Upload failed", since a layer with no feature has no valid bounds to fit. |
| AoiHandlers.Upload | App.jsx:189-211 | The whole upload starts only when the workspace is not busy and a file was chosen, and it then ends not busy. The AOIs gain exactly the decoded features, in order, or nothing when decoding fails. The status is "Shapefile loaded" only for a non-empty import whose fit succeeds. The calls are exactly one file read, then one fit of the view to the decoded features when decoding succeeds, and nothing else. |
| AoiHandlers.ExportGeoJson | App.jsx:213-224 | One download named aoi.geojson holds every AOI in order, and an empty collection when there are none. Only the status changes, to "GeoJSON exported". |
| AoiHandlers.ExportIdempotent | App.jsx:213-224 | Exporting twice in a row yields the same document and the same workspace. |
| AoiHandlers.DrawThenExport | App.jsx:101-104 | After a drawing, the exported document has one more feature, and its last feature is the drawn one. |
| AoiHandlers.UploadThenExport | App.jsx:200-204 | After a successful decode, the exported document is the earlier AOIs followed by the decoded features. Its length is the old count plus the number decoded, zero included. |
| Text.Trim | App.jsx:151 | The result is empty exactly when every character is ECMAScript whitespace or a line terminator. A non-empty result has no such character at either end. |
| SearchHandler.SearchSubmit | App.jsx:149-158 | A blank query leaves the whole state unchanged, status included, and makes no request. A non-blank query sets only the status, to "Searching…", and sends exactly one geocoding request with the query. |
| SearchHandler.SearchResolve | App.jsx:159-186 | A failed request keeps the marker and sets "Search failed". An empty answer keeps the marker and sets "No results". Otherwise the marker is replaced by one at the first candidate's point whose popup is bound to the display name in bold (`<b>…</b>`), the view flies there at zoom 14, and the status is the plain display name. AOIs and layers never change. |
| SearchHandler.PopupMarkup | App.jsx:180 | The marker's popup is bound to the display name wrapped in `<b>` and `</b>`; the name sits between the tags unchanged and can be read back. |
| SearchHandler.Search | App.jsx:149-187 | The whole search: a blank query changes nothing. Otherwise the calls are exactly one geocoding request and, on a hit only, one fly-to the first candidate at zoom 14; the marker and status follow the outcome as above. AOIs, layers and busy flag are unchanged. |
| SearchHandler.LateFailureKeepsNewerMarker | App.jsx:175-185 | Two searches are in flight. The second gets a hit first, then the first fails. The marker shows the second search's hit, and the status is "Search failed". |
| SearchHandler.DortmundScenario | App.jsx:166-183 | "Dortmund" answered with (51.51, 7.47, "Dortmund, Germany") leaves exactly one marker, at (51.51, 7.47) with popup "<b>Dortmund, Germany</b>". The status is the display name. The calls are the request, then the fly-to. |
| ScreenshotHandler.ScreenshotFileName | App.jsx:251 | The download name is "map-screenshot-", then the timestamp's decimal digits with no leading zero (just "0" for 0), then ".png"; reading those digits back gives the timestamp. |
| Text.Decimal | App.jsx:251 | The text a millisecond timestamp becomes inside the template: at least one decimal digit, and a leading zero only as the whole text "0" for 0 (its value read back is stated by `Text.DecimalRoundTrip`). |
| Text.DecimalRoundTrip | App.jsx:251 | Reading the decimal text of a number back gives the number. |
| ScreenshotHandler.ScreenshotNamesDistinct | App.jsx:251 | Two screenshots get the same file name `map-screenshot-<ms>.png` exactly when they were taken at the same millisecond. |
| ScreenshotHandler.CaptureBegin | App.jsx:226-231 | Starting a capture sets status "Capturing screenshot..." and willChange "transform", and requests rasterisation. Nothing else changes. |
| ScreenshotHandler.CaptureSettle | App.jsx:233-259 | willChange goes back to the value saved at the start, on both paths. A rendered image is downloaded under the timestamped name with status "Screenshot saved". A failure gives "Screenshot failed" and no download. Layers, AOIs and marker are unchanged. |
| ScreenshotHandler.Screenshot | App.jsx:226-260 | The whole capture leaves AOIs, basemaps, overlay and marker unchanged. willChange is as before. The status is "Screenshot saved" or "Screenshot failed" depending on the outcome, The calls are the rasterisation request and then, on success only, the download of the rendered image under the timestamped name. |
| ScreenshotHandler.CrossedCapturesLeaveTransform | App.jsx:229-259 | Two captures overlap and the first finishes first. The container is left with willChange "transform", because the second restores the value it found. |
| Controller.Next | App.jsx:101-335 | Each event reaches its handler: a finished drawing (:101), the search form (:281), the file input (:301), a basemap card (:319), the two export buttons (:331, :335), plus the opacity change and the second phase of each asynchronous handler. Whatever the event, the invariant is kept, the AOIs already collected stay at the front, and no basemap is detached. |
| Controller.RunPreserves | App.jsx:120-259 | After any sequence of events, the invariant still holds if it held at the start. Earlier AOIs stay at the front of the collection, unchanged. No basemap is ever detached. |
| Controller.OneBasemapAfterAnyRun | App.jsx:53-147 | From the mounted state, after any events, exactly one basemap is at 1, the others are at 0, and OpenStreetMap is still attached. |
| Controller.SelectDarkScenario | App.jsx:133-147 | On a fresh map, choosing "dark" puts dark at 1 and OpenStreetMap at 0, attaches dark, and sets status "Basemap: dark". |

## Behaviour worth noting

- The overlay opacity is passed on as parsed, with no clamping (App.jsx:121-130).
- The imported layer is added to the AOI group (App.jsx:201) before `fitBounds` runs (App.jsx:202). A failing fit therefore reports "Upload failed" and keeps the appended features.
- A failure while reading the file, converting the archive or building the GeoJSON layer (App.jsx:197-200) happens before anything is appended, so it leaves the collection untouched.
- An import that yields no feature builds a layer with no valid bounds, so the fit throws and the upload reports "Upload failed" (App.jsx:202, 205-206).
- Only the upload handler sets and clears the busy flag (App.jsx:194, 208). A screenshot in flight does not block an upload (App.jsx:226-259).
- No element in the markup (App.jsx:262-355) calls `handleOpacityChange`. The model keeps it as an operation.

## Left out

- Map rendering is not modelled: tile URLs, the `flyTo` animation, `fire("move")` and `_onResize` (App.jsx:168-173), and marker icons (App.jsx:14-19). These are library behaviour. Layers appear as identifiers, and view changes appear only as `FlyTo`/`FitBounds` effects.
- The draw-control widget (App.jsx:89-99) is not modelled, including its edit toolbar. That toolbar can remove shapes from the drawn group directly. In the model the collection changes only through the handlers, and its append-only property is stated for them.
- The tile prefetch loop (App.jsx:63-72) is left out. It fires image loads and discards them, with no state to observe.
- Mouse coordinate display (App.jsx:106-113) is left out. It is float formatting for display only.
- The sidebar toggle, the JSX markup and CSS are left out. They are UI chrome.
- `fetch` and `res.json()`, `shp`, `L.geoJSON`, `html2canvas`, `toDataURL`, `Blob`, the anchor click and `JSON.stringify` are external code. Only their outcomes enter the model, as parameters. `Date.now()` is a parameter too.
- The clone styling that suppresses transitions, animations and shadows in the capture (App.jsx:240-246) is left out. It belongs to the rasteriser.
- Bounds are not computed. Whether `fitBounds` succeeds for a non-empty import is a parameter; an empty import is always taken to fail the fit, because its layer has no valid bounds.
- The request URL encoding (App.jsx:157) is left out. The `Geocode` effect carries the raw query.
- The candidate's `lat`/`lon` strings and `+lat` conversion are left out. Candidates carry real numbers.
- `parseFloat` (App.jsx:121) is left out. The value is a real, so NaN cannot occur.
- The file input's value reset (App.jsx:209) is left out. It is DOM state with no effect on the workspace.
- The pre-mount React state (status "Ready", App.jsx:33) is not modelled separately. `Init` is the mounted workspace.
- The mount effect's guard (App.jsx:40) only stops a repeated run of the effect, which changes nothing; the overlay-null guard (App.jsx:124) always passes after mount. Neither has a branch in the model.
- Basemaps.Lookup: only the four registered keys resolve. A JavaScript object lookup would also find inherited members such as "constructor". The sidebar passes only the four keys (App.jsx:310-319).
- Concurrency is modelled only at the granularity of handler phases. Each phase is one atomic step, and other events may occur between two phases.
- GeoJSON details are simplified. Properties are a string map. Leaflet's coordinate rounding on export, null geometries and GeometryCollection are not represented.
