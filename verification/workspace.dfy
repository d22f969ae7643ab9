/** The workspace record the map component keeps across its refs and state
    hooks, the calls a handler makes into the map library, the geocoder and the
    browser, and the state right after the map is mounted. */
module WorkspaceState {
  import opened Wrappers
  import opened Geo
  import opened Basemaps

  /** The orthophoto (WMS) overlay: attached to the map or not, and its opacity. */
  datatype Overlay = Overlay(attached: bool, opacity: real)

  /** The single search marker, with the HTML its popup is bound to. */
  datatype Marker = Marker(lat: real, lon: real, popup: string)

  /** A file picked in the upload input. Its bytes reach the workspace only
      through the decode outcome, so only its name is kept. */
  datatype File = File(name: string)

  /** The workspace.
      `opacity` is the `opacity` state hook; `overlay` is the WMS layer itself;
      `aois` is the drawn-items feature group in insertion order; `busy` is the
      upload-active flag; `willChange` is the map container's inline style. */
  datatype Workspace = Workspace(
    registry: Registry,
    overlay: Overlay,
    opacity: real,
    aois: seq<Feature>,
    marker: Option<Marker>,
    busy: bool,
    status: string,
    willChange: string)

  /** What a download carries. */
  datatype Payload = GeoJsonDocument(document: FeatureCollection) | PngDataUrl(url: string)

  /** A call from a handler into a collaborator. */
  datatype Effect =
    | AttachBasemap(basemap: Basemap)
    | AttachOverlay
    | Geocode(query: string)
    | FlyTo(lat: real, lon: real, zoom: nat)
    | ReadArchive(file: File)
    | FitBounds(features: seq<Feature>)
    | Rasterize
    | Download(fileName: string, payload: Payload)

  /** The outcome of one handler: the new workspace and the calls it made. */
  datatype Step = Step(ws: Workspace, effects: seq<Effect>)

  /** The zoom level a successful search flies to. */
  const SearchZoom: nat := 14

  /** The workspace invariant: the registry shows exactly one basemap, and the
      overlay's opacity is the value the opacity state holds. */
  predicate Valid(ws: Workspace) {
    WellFormed(ws.registry) && ws.overlay.opacity == ws.opacity
  }

  /** Neither the AOI collection nor the search marker differ. */
  predicate SameAoisAndMarker(a: Workspace, b: Workspace) {
    a.aois == b.aois && a.marker == b.marker
  }

  /** None of the layers (basemaps, overlay) differ. */
  predicate SameLayers(a: Workspace, b: Workspace) {
    a.registry == b.registry && a.overlay == b.overlay && a.opacity == b.opacity
  }

  /** The state after the mount effect: OpenStreetMap alone visible, the other
      basemaps at 0, the overlay created detached at 0, no AOI, no marker, not
      busy, status "Map ready". */
  function Init(): (ws: Workspace)
    ensures Valid(ws)
    ensures Visible(ws.registry) == {Osm} && ws.registry.active == Osm
    ensures ws.registry.opacity[Light] == 0.0 && ws.registry.opacity[Dark] == 0.0
    ensures ws.registry.opacity[Topo] == 0.0
    ensures ws.registry.attached == {Osm} && ws.registry.selected == "osm"
    ensures !ws.overlay.attached && ws.overlay.opacity == 0.0
    ensures ws.aois == [] && ws.marker == None && !ws.busy
    ensures ws.status == "Map ready"
  {
    Workspace(Basemaps.Initial(), Overlay(false, 0.0), 0.0, [], None, false, "Map ready", "")
  }
}
