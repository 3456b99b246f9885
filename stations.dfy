/** The values stored in the transit graph: stations (nodes), stop points (the
    records nodes are made from) and weighted directed edges. */
module Stations {
  import opened Wrappers
  import opened Connection

  /** A geographic point; the first coordinate is the latitude. */
  datatype Point = Point(x: real, y: real)

  datatype Station = Station(id: string, location: Point, name: string)

  /** The fields of a stop-point record that the core reads. */
  datatype StopPoint = StopPoint(
    id: string,
    commonName: string,
    lat: real,
    lon: real,
    lines: seq<string>,
    tiploc: Option<string>)

  /** A directed edge between node indices. */
  datatype Edge = Edge(source: nat, target: nat, weight: Connection)

  /** `Station::from_stop_point`. */
  function StationOf(sp: StopPoint): (s: Station)
    ensures s.id == sp.id && s.name == sp.commonName
    ensures s.location == Point(sp.lat, sp.lon)
  {
    Station(sp.id, Point(sp.lat, sp.lon), sp.commonName)
  }

  /** Every stop in the map is filed under its own id. */
  predicate KeyedById(stops: map<string, StopPoint>)
  {
    forall k :: k in stops ==> stops[k].id == k
  }
}
