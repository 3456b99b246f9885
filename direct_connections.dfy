/** The `DirectConnection` record (one scheduled hop between two stops with its
    departure times) and the `directConnection` collection it is stored in. */
module DirectConnections {
  import opened Wrappers
  import opened Times
  import Text

  const DatabaseName := "tfl"
  /** The collection the timetable loader writes. */
  const CollectionName := "directConnection"
  /** The collection name the API-side copy of the record uses. */
  const ApiCollectionName := "direct_connection"

  datatype DirectConnection = DirectConnection(
    id: Option<string>,
    origin: string,
    destination: string,
    durationMinutes: real,
    departureTimes: seq<MinuteOfDay>)

  /** The document key, "<origin>-<destination>". */
  function Id(c: DirectConnection): (k: string)
    ensures |k| == |c.origin| + 1 + |c.destination|
    ensures k[..|c.origin|] == c.origin && k[|c.origin|] == '-' && k[|c.origin| + 1..] == c.destination
  {
    c.origin + "-" + c.destination
  }

  /** For origins without a '-' the key determines the endpoints; the key is the
      same for every duration and departure list. */
  lemma IdDeterminesEndpoints(a: DirectConnection, b: DirectConnection)
    requires '-' !in a.origin && '-' !in b.origin
    requires Id(a) == Id(b)
    ensures a.origin == b.origin && a.destination == b.destination
  {
    Text.SplitAtFirst(a.origin, a.destination, '-');
    Text.SplitAtFirst(b.origin, b.destination, '-');
    assert Id(a) == a.origin + ['-'] + a.destination;
    assert Id(b) == b.origin + ['-'] + b.destination;
    assert [a.origin] + Text.Split(a.destination, '-') == [b.origin] + Text.Split(b.destination, '-');
    assert a.origin == ([a.origin] + Text.Split(a.destination, '-'))[0];
    assert b.origin == ([b.origin] + Text.Split(b.destination, '-'))[0];
    assert a.destination == Id(a)[|a.origin| + 1..];
  }

  /** With a '-' inside an origin, two different hops share a key. */
  lemma IdCollidesOnDash()
    ensures var a := DirectConnection(None, "a-b", "c", 0.0, []);
            var b := DirectConnection(None, "a", "b-c", 0.0, []);
            Id(a) == Id(b) && a.origin != b.origin
  {
    var a := DirectConnection(None, "a-b", "c", 0.0, []);
    var b := DirectConnection(None, "a", "b-c", 0.0, []);
    assert Id(a) == "a-b-c" == Id(b);
  }

  /** `set_id`: stores the key in the record and touches nothing else. */
  function SetId(c: DirectConnection): (r: DirectConnection)
    ensures r.id == Some(Id(c))
    ensures Id(r) == Id(c)
    ensures r.origin == c.origin && r.destination == c.destination
    ensures r.durationMinutes == c.durationMinutes && r.departureTimes == c.departureTimes
  {
    c.(id := Some(Id(c)))
  }

  /** A stored record: keyed by its own id, departures sorted and distinct. */
  predicate WellFormedDoc(key: string, d: DirectConnection)
  {
    d.id == Some(key) && Id(d) == key && StrictlyIncreasing(d.departureTimes)
  }

  /** What `mongo_insert` stores for `con`, given the record found under its key. */
  function Merged(existing: Option<DirectConnection>, con: DirectConnection): (stored: DirectConnection)
    ensures StrictlyIncreasing(stored.departureTimes)
    ensures existing.None? ==> stored.id == Some(Id(con)) && Id(stored) == Id(con)
    ensures existing.None? ==> stored.(departureTimes := con.departureTimes) == SetId(con)
    ensures existing.None? ==> forall t :: t in stored.departureTimes <==> t in con.departureTimes
    ensures existing.Some? ==> stored.id == existing.value.id && Id(stored) == Id(existing.value)
    ensures existing.Some? ==> stored.(departureTimes := existing.value.departureTimes) == existing.value
    ensures existing.Some? ==> forall t :: t in stored.departureTimes <==>
                                 t in existing.value.departureTimes || t in con.departureTimes
  {
    match existing
    case None => SetId(con).(departureTimes := SortDedup(con.departureTimes))
    case Some(e) => e.(departureTimes := SortDedup(e.departureTimes + con.departureTimes))
  }

  /** Merging a hop whose times are already stored leaves the stored record as it was. */
  lemma MergeKnownTimes(e: DirectConnection, con: DirectConnection)
    requires StrictlyIncreasing(e.departureTimes)
    requires forall t :: t in con.departureTimes ==> t in e.departureTimes
    ensures Merged(Some(e), con) == e
  {
    var merged := Merged(Some(e), con).departureTimes;
    IncreasingDetermined(merged, e.departureTimes);
  }

  /** Every stored record is well formed. */
  predicate WellFormedDocs(docs: map<string, DirectConnection>)
  {
    forall k :: k in docs ==> WellFormedDoc(k, docs[k])
  }

  /** Every record sits under the key its own `id()` gives, as
      `insert_or_replace` files it. */
  predicate FiledUnderId(docs: map<string, DirectConnection>)
  {
    forall k :: k in docs ==> Id(docs[k]) == k
  }

  /** The `directConnection` collection, keyed by `_id`. */
  class Repository {
    var docs: map<string, DirectConnection>

    ghost predicate Valid()
      reads this
    {
      WellFormedDocs(docs)
    }

    constructor ()
      ensures docs == map[]
      ensures Valid()
    {
      docs := map[];
    }

    function GetById(key: string): (r: Option<DirectConnection>)
      reads this
      ensures r.Some? <==> key in docs
      ensures r.Some? ==> r.value == docs[key]
    {
      if key in docs then Some(docs[key]) else None
    }

    /** `mongo_insert`: adds the hop's departure times to the stored record for its
        key, or stores the hop itself when there is none; either way the stored
        times end up sorted and distinct. Returns the caller's record as the
        call leaves it (its times moved out, or its id set and times normalised).
        The stored times need not be sorted beforehand: the merge sorts them.
        Only the record found under the key must be the hop's own, since
        `insert_or_replace` files it under its `id()`. */
    method MongoInsert(con: DirectConnection) returns (self: DirectConnection)
      requires Id(con) in docs ==> Id(docs[Id(con)]) == Id(con)
      modifies this
      ensures old(Valid()) ==> Valid()
      ensures old(FiledUnderId(docs)) ==> FiledUnderId(docs)
      ensures docs == old(docs)[Id(con) := Merged(old(GetById(Id(con))), con)]
      ensures Id(con) in old(docs) ==> self == con.(departureTimes := [])
      ensures Id(con) !in old(docs) ==> self == docs[Id(con)]
    {
      var key := Id(con);
      var existing := GetById(key);
      match existing {
        case Some(e) =>
          docs := docs[key := Merged(existing, con)];
          self := con.(departureTimes := []);
        case None =>
          self := Merged(None, con);
          docs := docs[key := self];
      }
    }
  }
}
