/** `NodePair`: one edge of the graph as a stored document, with the two
    stations it joins, in the `nodePair` collection. */
module NodePairs {
  import opened Connection
  import opened Stations

  const DatabaseName := "graph"
  const CollectionName := "nodePair"

  datatype NodePair = NodePair(from: Station, to: Station, edge: Connection)

  /** The key: the two station ids one after the other, with no separator. */
  function Id(np: NodePair): (k: string)
    ensures |k| == |np.from.id| + |np.to.id|
    ensures k[..|np.from.id|] == np.from.id && k[|np.from.id|..] == np.to.id
  {
    np.from.id + np.to.id
  }

  /** The key ignores the edge and everything of the stations but their ids; for
      ids of one length it determines them. */
  lemma IdOnlyStationIds(a: NodePair, b: NodePair)
    ensures Id(a) == Id(b) <== a.from.id == b.from.id && a.to.id == b.to.id
    ensures Id(a) == Id(b) && |a.from.id| == |b.from.id| ==> a.from.id == b.from.id && a.to.id == b.to.id
  {
    if Id(a) == Id(b) && |a.from.id| == |b.from.id| {
      assert a.from.id == Id(a)[..|a.from.id|];
      assert a.to.id == Id(a)[|a.from.id|..];
    }
  }

  /** Two pairs between different stations can share a key. */
  lemma IdCollides(p: Point, c: Connection)
    ensures var a := NodePair(Station("ab", p, ""), Station("c", p, ""), c);
            var b := NodePair(Station("a", p, ""), Station("bc", p, ""), c);
            Id(a) == Id(b) && a.from != b.from
  {
    assert "ab" + "c" == "a" + "bc";
  }
}
