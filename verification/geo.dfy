/** The canonical geometry representation: GeoJSON-like features, the unit
    the AOI collection stores and the export writes out. */
module Geo {

  /** A GeoJSON position: longitude first, then latitude. */
  datatype Position = Position(lon: real, lat: real)

  /** The geometry kinds a drawn shape (polygon, rectangle, circle centre) or a
      converted shapefile can carry. */
  datatype Geometry =
    | Point(coordinates: Position)
    | MultiPoint(points: seq<Position>)
    | LineString(line: seq<Position>)
    | MultiLineString(lines: seq<seq<Position>>)
    | Polygon(rings: seq<seq<Position>>)
    | MultiPolygon(polygons: seq<seq<seq<Position>>>)

  /** One geometry with its properties (the shapefile's attribute row, or none
      for a drawn shape). */
  datatype Feature = Feature(geometry: Geometry, properties: map<string, string>)

  /** The document the geometry export writes: a FeatureCollection. */
  datatype FeatureCollection = FeatureCollection(features: seq<Feature>)
}
