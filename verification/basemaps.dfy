/** The basemap registry: four mutually exclusive background tile layers, of
    which exactly one is visible (opacity 1) once the map is initialised. */
module Basemaps {
  import opened Wrappers

  /** The registered basemaps, in the order the sidebar lists them. */
  datatype Basemap = Osm | Light | Dark | Topo {

    /** The registry key the sidebar passes for this basemap. */
    function Key(): string {
      match this
      case Osm => "osm"
      case Light => "light"
      case Dark => "dark"
      case Topo => "topo"
    }
  }

  /** Looking a key up in the registry object: defined exactly for the four
      registered keys, and the inverse of `Key`. */
  function Lookup(key: string): (r: Option<Basemap>)
    ensures forall b: Basemap :: r == Some(b) <==> b.Key() == key
  {
    if key == "osm" then Some(Osm)
    else if key == "light" then Some(Light)
    else if key == "dark" then Some(Dark)
    else if key == "topo" then Some(Topo)
    else None
  }

  /** The registry's state: each basemap's opacity, the active layer, the key
      the sidebar highlights, and the basemaps attached to the map. */
  datatype Registry = Registry(
    opacity: map<Basemap, real>,
    active: Basemap,
    selected: string,
    attached: set<Basemap>)

  /** The registry invariant: every basemap has an opacity, the active one at 1
      and every other at 0; the active one is attached and highlighted. */
  predicate WellFormed(reg: Registry) {
    && (forall b: Basemap :: b in reg.opacity)
    && (forall b: Basemap :: b in reg.opacity ==>
          reg.opacity[b] == (if b == reg.active then 1.0 else 0.0))
    && reg.active in reg.attached
    && reg.selected == reg.active.Key()
  }

  /** The basemaps currently drawn at full opacity. */
  function Visible(reg: Registry): set<Basemap> {
    set b: Basemap | b in reg.opacity && reg.opacity[b] == 1.0
  }

  /** Under the invariant exactly one basemap is visible, and it is the active one. */
  lemma ExactlyOneVisible(reg: Registry)
    requires WellFormed(reg)
    ensures Visible(reg) == {reg.active}
    ensures |Visible(reg)| == 1
    ensures forall b: Basemap :: b != reg.active ==> reg.opacity[b] == 0.0
  {
    forall b: Basemap
      ensures b in Visible(reg) <==> b == reg.active
    {
      assert b in reg.opacity;
    }
  }

  /** A map with an entry for each of the four keys covers the registry. */
  lemma CoversRegistry<V>(m: map<Basemap, V>)
    requires Osm in m && Light in m && Dark in m && Topo in m
    ensures forall b: Basemap :: b in m
  {
    forall b: Basemap
      ensures b in m
    {
      match b
      case Osm =>
      case Light =>
      case Dark =>
      case Topo =>
    }
  }

  /** The registry as map initialisation leaves it: OpenStreetMap attached at
      opacity 1, the other three created at opacity 0 and not attached. */
  function Initial(): (reg: Registry)
    ensures WellFormed(reg)
    ensures Visible(reg) == {Osm}
    ensures reg.opacity[Light] == 0.0 && reg.opacity[Dark] == 0.0 && reg.opacity[Topo] == 0.0
    ensures reg.attached == {Osm} && reg.selected == "osm"
  {
    var reg := Registry(map[Osm := 1.0, Light := 0.0, Dark := 0.0, Topo := 0.0], Osm, "osm", {Osm});
    CoversRegistry(reg.opacity);
    ExactlyOneVisible(reg);
    reg
  }

  /** Switching to another basemap: the previous one fades to 0, the new one is
      attached if it was not and shown at 1; no other layer is touched and no
      layer is ever detached. */
  function Switch(reg: Registry, b: Basemap): (r: Registry)
    requires b != reg.active
    ensures r.active == b && r.selected == b.Key()
    ensures b in r.opacity && r.opacity[b] == 1.0
    ensures reg.active in r.opacity && r.opacity[reg.active] == 0.0
    ensures forall c :: c in reg.opacity && c != b && c != reg.active ==>
              c in r.opacity && r.opacity[c] == reg.opacity[c]
    ensures r.attached == reg.attached + {b}
    ensures WellFormed(reg) ==> WellFormed(r)
  {
    Registry(reg.opacity[reg.active := 0.0][b := 1.0], b, b.Key(), reg.attached + {b})
  }
}
