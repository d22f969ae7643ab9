/** The two layer handlers: choosing a basemap and changing the overlay opacity. */
module LayerHandlers {
  import opened Wrappers
  import opened Basemaps
  import opened WorkspaceState

  /** The basemap card handler. An unknown key, or the key of the active
      basemap, changes nothing. Otherwise the chosen basemap becomes the only
      visible one, is attached if it was not, is highlighted, and the status
      names it; nothing outside the registry changes. */
  function BasemapChange(ws: Workspace, key: string): (r: Step)
    ensures (r.ws == ws && r.effects == []) <==>
            (Lookup(key).None? || Lookup(key) == Some(ws.registry.active))
    ensures var b := Lookup(key);
      b.Some? && b.value != ws.registry.active ==>
        && r.ws.registry.active == b.value
        && r.ws.registry.selected == key
        && r.ws.status == "Basemap: " + key
        && r.ws.registry.attached == ws.registry.attached + {b.value}
        && b.value in r.ws.registry.opacity && r.ws.registry.opacity[b.value] == 1.0
        && ws.registry.active in r.ws.registry.opacity
        && r.ws.registry.opacity[ws.registry.active] == 0.0
        && (forall c :: c in ws.registry.opacity && c != b.value && c != ws.registry.active ==>
              c in r.ws.registry.opacity && r.ws.registry.opacity[c] == ws.registry.opacity[c])
        && r.effects == (if b.value in ws.registry.attached then [] else [AttachBasemap(b.value)])
    ensures ws.registry.attached <= r.ws.registry.attached
    ensures SameAoisAndMarker(ws, r.ws) && r.ws.overlay == ws.overlay && r.ws.opacity == ws.opacity
    ensures r.ws.busy == ws.busy && r.ws.willChange == ws.willChange
    ensures Valid(ws) ==> Valid(r.ws)
  {
    match Lookup(key)
    case None => Step(ws, [])
    case Some(b) =>
      if b == ws.registry.active then Step(ws, [])
      else
        var attach := if b in ws.registry.attached then [] else [AttachBasemap(b)];
        Step(ws.(registry := Switch(ws.registry, b), status := "Basemap: " + key), attach)
  }

  /** The overlay opacity handler. The opacity state and the overlay both take
      the value as given (it is not clamped); the overlay is attached on the
      first call only; the status, basemaps and AOIs are untouched. */
  function OpacityChange(ws: Workspace, v: real): (r: Step)
    ensures r.ws.overlay.attached
    ensures r.ws.overlay.opacity == v && r.ws.opacity == v
    ensures r.effects == [] || r.effects == [AttachOverlay]
    ensures AttachOverlay in r.effects <==> !ws.overlay.attached
    ensures r.ws.registry == ws.registry && SameAoisAndMarker(ws, r.ws)
    ensures r.ws.status == ws.status && r.ws.busy == ws.busy && r.ws.willChange == ws.willChange
    ensures Valid(ws) ==> Valid(r.ws)
  {
    var attach := if ws.overlay.attached then [] else [AttachOverlay];
    Step(ws.(opacity := v, overlay := Overlay(true, v)), attach)
  }

  /** A second opacity change never attaches the overlay again. */
  lemma OpacityAttachesOnce(ws: Workspace, v: real, w: real)
    ensures OpacityChange(OpacityChange(ws, v).ws, w).effects == []
    ensures OpacityChange(OpacityChange(ws, v).ws, w).ws.overlay.opacity == w
  {
  }
}
