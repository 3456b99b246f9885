/** The `RouteEndpoints` record of a line's route section, stored in the
    `routeEndPoints` collection under a key made from its two endpoints. */
module LineResponse {
  import opened Wrappers

  const DatabaseName := "tfl"
  const CollectionName := "routeEndPoints"

  datatype Direction = Outbound | Inbound

  datatype RouteEndpoints = RouteEndpoints(
    id: Option<string>,
    name: string,
    direction: Direction,
    originationName: string,
    destinationName: string,
    originator: string,
    destination: string,
    lineIds: Option<seq<string>>)

  /** The document key: the originator's id followed directly by the destination's. */
  function Id(r: RouteEndpoints): (k: string)
    ensures |k| == |r.originator| + |r.destination|
    ensures k[..|r.originator|] == r.originator && k[|r.originator|..] == r.destination
  {
    r.originator + r.destination
  }

  /** `set_id`: stores the key and changes nothing else. */
  function SetId(r: RouteEndpoints): (r': RouteEndpoints)
    ensures r'.id == Some(Id(r)) && Id(r') == Id(r)
    ensures r' == r.(id := r'.id)
  {
    r.(id := Some(Id(r)))
  }

  /** The key depends on the endpoints alone: name, direction, endpoint names and
      line ids do not enter it. */
  lemma IdOnlyEndpoints(a: RouteEndpoints, b: RouteEndpoints)
    ensures Id(a) == Id(b) <== a.originator == b.originator && a.destination == b.destination
    ensures Id(a) == Id(b) && |a.originator| == |b.originator| ==>
              a.originator == b.originator && a.destination == b.destination
  {
    if Id(a) == Id(b) && |a.originator| == |b.originator| {
      assert a.originator == Id(a)[..|a.originator|];
      assert a.destination == Id(a)[|a.originator|..];
    }
  }

  /** With no separator, different endpoint pairs can share a key. */
  lemma IdCollides()
    ensures var a := RouteEndpoints(None, "", Outbound, "", "", "ab", "c", None);
            var b := RouteEndpoints(None, "", Outbound, "", "", "a", "bc", None);
            Id(a) == Id(b) && a.originator != b.originator
  {
    assert "ab" + "c" == "a" + "bc";
  }
}
