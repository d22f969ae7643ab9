/** The workspace controller: routes each UI or collaborator event to its
    handler, and the properties that hold over any sequence of events. */
module Controller {
  import opened Wrappers
  import opened Geo
  import opened Basemaps
  import opened WorkspaceState
  import opened LayerHandlers
  import opened AoiHandlers
  import opened SearchHandler
  import opened ScreenshotHandler

  /** Everything that can happen to a mounted workspace. The second phase of an
      asynchronous handler is its own event, so other events may come between
      the two phases. */
  datatype Event =
    | ShapeDrawn(feature: Feature)
    | BasemapClicked(key: string)
    | OpacitySet(value: real)
    | SearchSubmitted(query: string)
    | GeocoderAnswered(answer: GeocodeOutcome)
    | FileChosen(file: Option<File>)
    | ArchiveRead(decoded: DecodeOutcome, fitted: bool)
    | GeoJsonRequested
    | ScreenshotRequested
    | ScreenshotTaken(saved: string, capture: CaptureOutcome, now: nat)

  /** Routes one event to exactly one handler. Every handler keeps the
      invariant, keeps the AOIs already collected at the front of the
      collection, and never detaches a basemap. */
  function Next(ws: Workspace, ev: Event): (r: Step)
    ensures Valid(ws) ==> Valid(r.ws)
    ensures ws.aois <= r.ws.aois
    ensures ws.registry.attached <= r.ws.registry.attached
  {
    match ev
    case ShapeDrawn(f) => DrawCreated(ws, f)
    case BasemapClicked(key) => BasemapChange(ws, key)
    case OpacitySet(v) => OpacityChange(ws, v)
    case SearchSubmitted(q) => SearchSubmit(ws, q)
    case GeocoderAnswered(a) => SearchResolve(ws, a)
    case FileChosen(file) => UploadSelect(ws, file)
    case ArchiveRead(decoded, fitted) => UploadSettle(ws, decoded, fitted)
    case GeoJsonRequested => ExportGeoJson(ws)
    case ScreenshotRequested => CaptureBegin(ws)
    case ScreenshotTaken(saved, capture, now) => CaptureSettle(ws, saved, capture, now)
  }

  /** The workspace after a sequence of events. */
  function Run(ws: Workspace, evs: seq<Event>): Workspace
    decreases |evs|
  {
    if evs == [] then ws else Run(Next(ws, evs[0]).ws, evs[1..])
  }

  /** Over any sequence of events the invariant holds throughout, the AOI
      collection only grows at its end, and the attached basemaps only grow. */
  lemma {:induction false} RunPreserves(ws: Workspace, evs: seq<Event>)
    ensures Valid(ws) ==> Valid(Run(ws, evs))
    ensures ws.aois <= Run(ws, evs).aois
    ensures ws.registry.attached <= Run(ws, evs).registry.attached
    decreases |evs|
  {
    if evs != [] {
      RunPreserves(Next(ws, evs[0]).ws, evs[1..]);
    }
  }

  /** From the mounted state, after any events, exactly one basemap is visible,
      it is the active one, every other basemap is at 0, and OpenStreetMap is
      still attached. */
  lemma OneBasemapAfterAnyRun(evs: seq<Event>)
    ensures var ws := Run(Init(), evs);
      && Visible(ws.registry) == {ws.registry.active}
      && |Visible(ws.registry)| == 1
      && (forall b: Basemap :: b != ws.registry.active ==>
            b in ws.registry.opacity && ws.registry.opacity[b] == 0.0)
      && Osm in ws.registry.attached
  {
    RunPreserves(Init(), evs);
    ExactlyOneVisible(Run(Init(), evs).registry);
  }

  /** Choosing "dark" on a fresh map: dark at 1, OpenStreetMap at 0, and the
      status names the basemap. */
  lemma SelectDarkScenario()
    ensures var r := Next(Init(), BasemapClicked("dark"));
      && r.ws.registry.opacity[Dark] == 1.0
      && r.ws.registry.opacity[Osm] == 0.0
      && r.ws.status == "Basemap: dark"
      && r.effects == [AttachBasemap(Dark)]
  {
  }
}
