/** The AOI collection handlers: a finished drawing, a shapefile upload in two
    phases (file chosen, archive read), and the GeoJSON export. */
module AoiHandlers {
  import opened Wrappers
  import opened Geo
  import opened WorkspaceState

  /** What reading and converting the chosen archive produced: a failure of the
      file read, of the shapefile conversion or of building the GeoJSON layer
      (all three happen before anything is appended), or the converted features
      in the order the converter returned them. */
  datatype DecodeOutcome = Unreadable | Decoded(features: seq<Feature>)

  /** The name the geometry export downloads under. */
  const GeoJsonFileName: string := "aoi.geojson"

  /** A finished drawing: the shape goes at the end of the collection, every
      earlier AOI stays where it was, and the status reports it. */
  function DrawCreated(ws: Workspace, f: Feature): (r: Step)
    ensures |r.ws.aois| == |ws.aois| + 1
    ensures r.ws.aois[..|ws.aois|] == ws.aois && r.ws.aois[|ws.aois|] == f
    ensures r.ws.status == "AOI added" && r.effects == []
    ensures SameLayers(ws, r.ws) && r.ws.marker == ws.marker
    ensures r.ws.busy == ws.busy && r.ws.willChange == ws.willChange
  {
    Step(ws.(aois := ws.aois + [f], status := "AOI added"), [])
  }

  /** A change event on the upload input. The input is disabled while an upload
      is in flight, and an empty selection returns at once: both leave
      everything as it was. Otherwise the workspace turns busy, the status says
      the shapefile is loading, and the file is read. */
  function UploadSelect(ws: Workspace, file: Option<File>): (r: Step)
    ensures (ws.busy || file.None?) ==> r == Step(ws, [])
    ensures !ws.busy && file.Some? ==>
      && r.ws.busy
      && r.ws.status == "Loading shapefile\U{2026}"
      && r.effects == [ReadArchive(file.value)]
    ensures SameLayers(ws, r.ws) && SameAoisAndMarker(ws, r.ws) && r.ws.willChange == ws.willChange
  {
    if ws.busy || file.None? then Step(ws, [])
    else Step(ws.(busy := true, status := "Loading shapefile\U{2026}"), [ReadArchive(file.value)])
  }

  /** The rest of the upload handler, once the archive has been read. A decode
      failure leaves the collection as it was. Decoded features are appended
      after the existing AOIs before the view is fitted to them, so a failure
      of that fit reports "Upload failed" yet keeps them. `fitted` is whether
      the fit succeeds on bounds that exist; a layer with no feature has no
      valid bounds, the fit throws, and the upload reports "Upload failed". On
      every path the busy flag is cleared. */
  function UploadSettle(ws: Workspace, decoded: DecodeOutcome, fitted: bool): (r: Step)
    ensures !r.ws.busy
    ensures decoded.Unreadable? ==>
      r.ws.aois == ws.aois && r.ws.status == "Upload failed" && r.effects == []
    ensures decoded.Decoded? ==>
      && |r.ws.aois| == |ws.aois| + |decoded.features|
      && r.ws.aois[..|ws.aois|] == ws.aois
      && r.ws.aois[|ws.aois|..] == decoded.features
      && r.effects == [FitBounds(decoded.features)]
      && r.ws.status == (if fitted && decoded.features != [] then "Shapefile loaded"
                         else "Upload failed")
    ensures decoded == Decoded([]) ==> r.ws.status == "Upload failed"
    ensures SameLayers(ws, r.ws) && r.ws.marker == ws.marker && r.ws.willChange == ws.willChange
  {
    match decoded
    case Unreadable => Step(ws.(busy := false, status := "Upload failed"), [])
    case Decoded(fs) =>
      var status := if fitted && fs != [] then "Shapefile loaded" else "Upload failed";
      Step(ws.(aois := ws.aois + fs, busy := false, status := status), [FitBounds(fs)])
  }

  /** The whole upload handler as one step, given the collaborators' outcomes.
      It starts only when not busy and a file was chosen, and then always ends
      not busy; the collection gains exactly the decoded features, or nothing. */
  function Upload(ws: Workspace, file: Option<File>, decoded: DecodeOutcome, fitted: bool): (r: Step)
    ensures (ws.busy || file.None?) ==> r == Step(ws, [])
    ensures !ws.busy && file.Some? ==>
      && !r.ws.busy
      && r.effects == [ReadArchive(file.value)] +
           (if decoded.Decoded? then [FitBounds(decoded.features)] else [])
      && (decoded.Unreadable? ==> r.ws.aois == ws.aois && r.ws.status == "Upload failed")
      && (decoded.Decoded? ==>
            r.ws.aois == ws.aois + decoded.features
            && r.ws.status == (if fitted && decoded.features != [] then "Shapefile loaded"
                               else "Upload failed"))
    ensures SameLayers(ws, r.ws) && r.ws.marker == ws.marker && r.ws.willChange == ws.willChange
  {
    var start := UploadSelect(ws, file);
    if start.effects == [] then start
    else
      var done := UploadSettle(start.ws, decoded, fitted);
      Step(done.ws, start.effects + done.effects)
  }

  /** The GeoJSON export: one download named "aoi.geojson" holding every AOI in
      collection order (an empty collection when there is none); the collection
      and everything but the status are left as they were. */
  function ExportGeoJson(ws: Workspace): (r: Step)
    ensures |r.effects| == 1 && r.effects[0].Download?
    ensures r.effects[0].fileName == GeoJsonFileName
    ensures r.effects[0].payload.GeoJsonDocument?
    ensures r.effects[0].payload.document.features == ws.aois
    ensures r.ws == ws.(status := "GeoJSON exported")
  {
    var document := FeatureCollection(ws.aois);
    Step(ws.(status := "GeoJSON exported"), [Download(GeoJsonFileName, GeoJsonDocument(document))])
  }

  /** Exporting twice in a row yields the same document and the same state. */
  lemma ExportIdempotent(ws: Workspace)
    ensures var once := ExportGeoJson(ws);
      ExportGeoJson(once.ws) == once
  {
  }

  /** A drawing followed by an export: the document's last feature is the
      drawn one, and it has one feature more than before. */
  lemma DrawThenExport(ws: Workspace, f: Feature)
    ensures var doc := ExportGeoJson(DrawCreated(ws, f).ws).effects[0].payload.document;
      |doc.features| == |ws.aois| + 1 && doc.features[|doc.features| - 1] == f
  {
  }

  /** A successful decode followed by an export: the document holds the earlier
      AOIs and then the decoded features, so it gains exactly as many features
      as the archive yielded (none for an empty archive). */
  lemma UploadThenExport(ws: Workspace, file: File, fs: seq<Feature>, fitted: bool)
    requires !ws.busy
    ensures var doc := ExportGeoJson(Upload(ws, Some(file), Decoded(fs), fitted).ws)
                         .effects[0].payload.document;
      doc.features == ws.aois + fs && |doc.features| == |ws.aois| + |fs|
  {
  }
}
