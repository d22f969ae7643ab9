/** The search handler, in two phases: the query is submitted, then the
    geocoder's answer is applied. */
module SearchHandler {
  import opened Wrappers
  import opened Text
  import opened WorkspaceState

  /** One geocoder candidate: its point and display name. */
  datatype Place = Place(lat: real, lon: real, displayName: string)

  /** What the geocoding request produced: a failure anywhere in the request or
      in reading its answer, or the candidate list in the provider's order. */
  datatype GeocodeOutcome = RequestFailed | Answered(places: seq<Place>)

  /** The popup markup bound to the search marker: the display name in bold.
      The name sits between the tags unchanged, so it can be read back. */
  function PopupMarkup(displayName: string): (html: string)
    ensures |html| == |displayName| + 7
    ensures html[..3] == "<b>" && html[|html| - 4..] == "</b>"
    ensures html[3..|html| - 4] == displayName
  {
    var html := "<b>" + displayName + "</b>";
    assert html[3..|html| - 4] == displayName;
    html
  }

  /** Submitting the search form. A query that trims to nothing is ignored
      outright: no request, no status change. Otherwise the status says a
      search is running and the query, untrimmed, is sent to the geocoder. */
  function SearchSubmit(ws: Workspace, query: string): (r: Step)
    ensures IsBlank(query) <==> r == Step(ws, [])
    ensures !IsBlank(query) ==>
      r.ws == ws.(status := "Searching\U{2026}") && r.effects == [Geocode(query)]
  {
    if Trim(query) == [] then Step(ws, [])
    else Step(ws.(status := "Searching\U{2026}"), [Geocode(query)])
  }

  /** Applying the geocoder's answer. A failed request or an empty answer only
      sets the status ("Search failed", "No results"). Otherwise only the first
      candidate counts: the view flies to it, the one marker is replaced by a
      marker at its point, and the status becomes its display name. The AOIs
      and layers never change. */
  function SearchResolve(ws: Workspace, outcome: GeocodeOutcome): (r: Step)
    ensures outcome.RequestFailed? ==>
      r.ws.marker == ws.marker && r.ws.status == "Search failed" && r.effects == []
    ensures outcome.Answered? && outcome.places == [] ==>
      r.ws.marker == ws.marker && r.ws.status == "No results" && r.effects == []
    ensures outcome.Answered? && outcome.places != [] ==>
      var p := outcome.places[0];
      && r.ws.marker == Some(Marker(p.lat, p.lon, PopupMarkup(p.displayName)))
      && r.ws.status == p.displayName
      && r.effects == [FlyTo(p.lat, p.lon, SearchZoom)]
    ensures SameLayers(ws, r.ws) && r.ws.aois == ws.aois
    ensures r.ws.busy == ws.busy && r.ws.willChange == ws.willChange
  {
    match outcome
    case RequestFailed => Step(ws.(status := "Search failed"), [])
    case Answered(places) =>
      if places == [] then Step(ws.(status := "No results"), [])
      else
        var p := places[0];
        Step(ws.(marker := Some(Marker(p.lat, p.lon, PopupMarkup(p.displayName))), status := p.displayName),
             [FlyTo(p.lat, p.lon, SearchZoom)])
  }

  /** The search handler as one step, given the geocoder's outcome. */
  function Search(ws: Workspace, query: string, outcome: GeocodeOutcome): (r: Step)
    ensures IsBlank(query) ==> r == Step(ws, [])
    ensures !IsBlank(query) ==>
      && r.effects == [Geocode(query)] +
           (if outcome.Answered? && outcome.places != []
            then [FlyTo(outcome.places[0].lat, outcome.places[0].lon, SearchZoom)] else [])
      && (outcome.RequestFailed? ==> r.ws.marker == ws.marker && r.ws.status == "Search failed")
      && (outcome == Answered([]) ==> r.ws.marker == ws.marker && r.ws.status == "No results")
      && (outcome.Answered? && outcome.places != [] ==>
            r.ws.marker == Some(Marker(outcome.places[0].lat, outcome.places[0].lon,
                                       PopupMarkup(outcome.places[0].displayName)))
            && r.ws.status == outcome.places[0].displayName)
    ensures SameLayers(ws, r.ws) && r.ws.aois == ws.aois
    ensures r.ws.busy == ws.busy && r.ws.willChange == ws.willChange
  {
    var start := SearchSubmit(ws, query);
    if start.effects == [] then start
    else
      var done := SearchResolve(start.ws, outcome);
      Step(done.ws, start.effects + done.effects)
  }

  /** Two searches in flight, the second answered first with a hit and the first
      failing afterwards: the marker still shows the second search's hit, while
      the status is the late failure's (last writer wins). */
  lemma LateFailureKeepsNewerMarker(ws: Workspace, q1: string, q2: string, p: Place, rest: seq<Place>)
    requires !IsBlank(q1) && !IsBlank(q2)
    ensures
      var first := SearchSubmit(ws, q1).ws;
      var second := SearchSubmit(first, q2).ws;
      var answered := SearchResolve(second, Answered([p] + rest)).ws;
      var failed := SearchResolve(answered, RequestFailed).ws;
      failed.marker == Some(Marker(p.lat, p.lon, PopupMarkup(p.displayName)))
      && failed.status == "Search failed"
  {
  }

  /** A search for "Dortmund" answered with one hit at (51.51, 7.47): exactly
      that marker afterwards, and the status is the hit's display name. */
  lemma DortmundScenario(ws: Workspace)
    ensures
      var hit := Place(51.51, 7.47, "Dortmund, Germany");
      var r := Search(ws, "Dortmund", Answered([hit]));
      r.ws.marker == Some(Marker(51.51, 7.47, "<b>Dortmund, Germany</b>"))
      && r.ws.status == "Dortmund, Germany"
      && r.effects == [Geocode("Dortmund"), FlyTo(51.51, 7.47, SearchZoom)]
  {
    assert !IsTrimmable("Dortmund"[0]);
    var html := PopupMarkup("Dortmund, Germany");
    assert html == "<b>" + "Dortmund, Germany" + "</b>";
    assert "<b>" + "Dortmund, Germany" + "</b>" == "<b>Dortmund, Germany</b>";
  }
}
