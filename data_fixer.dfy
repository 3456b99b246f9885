/** The one-off repairs of stored data: departure lists normalised to sorted,
    duplicate-free form, and every stop point given a tiploc derived from its id. */
module DataFixer {
  import opened Wrappers
  import opened Times
  import opened Stations
  import opened DirectConnections

  /** `char::is_alphabetic`, on the ASCII letters stop ids are written in. */
  predicate IsAlphabetic(c: char)
  {
    'a' <= c <= 'z' || 'A' <= c <= 'Z'
  }

  /** `id_to_tiploc`: the letters of the id, in their order; digits and other
      characters are dropped. */
  function IdToTiploc(id: string): (t: string)
    ensures |t| <= |id|
    ensures forall i :: 0 <= i < |t| ==> IsAlphabetic(t[i])
    ensures forall c :: c in t ==> c in id
    decreases |id|
  {
    if id == [] then []
    else (if IsAlphabetic(id[0]) then [id[0]] else []) + IdToTiploc(id[1..])
  }

  /** The filter works piece by piece, so the letters keep their relative order. */
  lemma {:induction false} IdToTiplocAppend(a: string, b: string)
    ensures IdToTiploc(a + b) == IdToTiploc(a) + IdToTiploc(b)
    decreases |a|
  {
    if a != [] {
      assert (a + b)[1..] == a[1..] + b;
      IdToTiplocAppend(a[1..], b);
    } else {
      assert a + b == b;
    }
  }

  /** Each letter is kept as often as it occurs and nothing else is kept. */
  lemma {:induction false} IdToTiplocCounts(id: string, c: char)
    ensures multiset(IdToTiploc(id))[c] == if IsAlphabetic(c) then multiset(id)[c] else 0
    decreases |id|
  {
    if id != [] {
      IdToTiplocCounts(id[1..], c);
      assert id == [id[0]] + id[1..];
    }
  }

  /** Deriving a tiploc from a tiploc changes nothing. */
  lemma {:induction false} IdToTiplocIdempotent(id: string)
    ensures IdToTiploc(IdToTiploc(id)) == IdToTiploc(id)
  {
    LettersOnlyFixed(IdToTiploc(id));
  }

  /** A string of letters is its own tiploc. */
  lemma {:induction false} LettersOnlyFixed(s: string)
    requires forall i :: 0 <= i < |s| ==> IsAlphabetic(s[i])
    ensures IdToTiploc(s) == s
    decreases |s|
  {
    if s != [] {
      LettersOnlyFixed(s[1..]);
      assert [s[0]] + s[1..] == s;
    }
  }

  // ------------------------------------------------ fix_direct_connection_repo

  /** A record with its departure list sorted and deduplicated. */
  function Normalised(c: DirectConnection): (n: DirectConnection)
    ensures StrictlyIncreasing(n.departureTimes)
    ensures forall t :: t in n.departureTimes <==> t in c.departureTimes
    ensures n.(departureTimes := c.departureTimes) == c
  {
    c.(departureTimes := SortDedup(c.departureTimes))
  }

  /** Normalising twice is normalising once. */
  lemma NormalisedIdempotent(c: DirectConnection)
    ensures Normalised(Normalised(c)) == Normalised(c)
  {
    SortDedupOfIncreasing(Normalised(c).departureTimes);
  }

  /** The collection after the records under `done` have been rewritten. */
  function FixedConnections(docs: map<string, DirectConnection>, done: set<string>): (r: map<string, DirectConnection>)
    ensures r.Keys == docs.Keys
  {
    map k | k in docs :: if k in done then Normalised(docs[k]) else docs[k]
  }

  /** `fix_direct_connection_repo`: visits the records in the cursor's order and
      writes each back with its departure times sorted and deduplicated. */
  method FixDirectConnectionRepo(repo: Repository)
    requires FiledUnderId(repo.docs)
    modifies repo
    ensures repo.docs == FixedConnections(old(repo.docs), old(repo.docs).Keys)
  {
    ghost var docs0 := repo.docs;
    ghost var done: set<string> := {};
    var remaining := repo.docs.Keys;
    FixedConnectionsNone(docs0);
    while remaining != {}
      invariant remaining + done == docs0.Keys && remaining !! done
      invariant repo.docs == FixedConnections(docs0, done)
      decreases |remaining|
    {
      var k :| k in remaining;
      FixConnection(repo, docs0, done, k);
      TakeOne(remaining, done, k);
      done := done + {k};
      remaining := remaining - {k};
    }
    assert done == docs0.Keys;
  }

  /** Moving one key from the keys left to the keys done keeps them splitting
      the same set, and leaves fewer to do. */
  lemma TakeOne(remaining: set<string>, done: set<string>, k: string)
    requires k in remaining && remaining !! done
    ensures (remaining - {k}) + (done + {k}) == remaining + done
    ensures (remaining - {k}) !! (done + {k})
    ensures |remaining - {k}| < |remaining|
  {
  }

  /** Before the first record is visited nothing is rewritten. */
  lemma FixedConnectionsNone(docs: map<string, DirectConnection>)
    ensures FixedConnections(docs, {}) == docs
  {
  }

    /** One turn of the cursor loop: the record under `k` is written back normalised. */
  method FixConnection(repo: Repository, ghost docs0: map<string, DirectConnection>, ghost done: set<string>, k: string)
    requires FiledUnderId(docs0) && k in docs0 && k !in done
    requires repo.docs == FixedConnections(docs0, done)
    modifies repo
    ensures repo.docs == FixedConnections(docs0, done + {k})
  {
    var con := repo.docs[k];
    var newCon := con.(departureTimes := SortDedup(con.departureTimes));
    FixedConnectionsStep(docs0, done, k);
    // `insert_or_replace` files the record under its own id, which is `k`
    repo.docs := repo.docs[Id(newCon) := newCon];
  }

  /** Rewriting one more record. */
  lemma FixedConnectionsStep(docs: map<string, DirectConnection>, done: set<string>, k: string)
    requires FiledUnderId(docs) && k in docs && k !in done
    ensures FixedConnections(docs, done)[k] == docs[k]
    ensures Id(Normalised(docs[k])) == k
    ensures FixedConnections(docs, done)[k := Normalised(docs[k])] == FixedConnections(docs, done + {k})
  {
  }

  /** Once fixed, a collection of records filed under their ids and carrying
      them is a valid repository, and every record keeps its times. */
  lemma FixedConnectionsValid(docs: map<string, DirectConnection>)
    requires FiledUnderId(docs)
    requires forall k :: k in docs ==> docs[k].id == Some(k)
    ensures var fixed := FixedConnections(docs, docs.Keys);
            (forall k :: k in fixed ==> WellFormedDoc(k, fixed[k]))
            && forall k, t :: k in fixed ==> (t in fixed[k].departureTimes <==> t in docs[k].departureTimes)
  {
  }

  // ------------------------------------------------------ fix_stop_point_repo

  /** The stop-point collection, keyed by stop id. */
  class StopPointRepository {
    var docs: map<string, StopPoint>

    constructor (stops: map<string, StopPoint>)
      ensures docs == stops
    {
      docs := stops;
    }
  }

  /** The collection after the stops under `done` got their tiploc. */
  function WithTiplocs(docs: map<string, StopPoint>, done: set<string>): (r: map<string, StopPoint>)
    ensures r.Keys == docs.Keys
  {
    map k | k in docs :: if k in done then docs[k].(tiploc := Some(IdToTiploc(docs[k].id))) else docs[k]
  }

  /** `fix_stop_point_repo`: every stop gets the tiploc its id yields; nothing
      else about it changes. */
  method FixStopPointRepo(repo: StopPointRepository)
    requires KeyedById(repo.docs)
    modifies repo
    ensures repo.docs == WithTiplocs(old(repo.docs), old(repo.docs).Keys)
  {
    ghost var docs0 := repo.docs;
    ghost var done: set<string> := {};
    var remaining := repo.docs.Keys;
    WithTiplocsNone(docs0);
    while remaining != {}
      invariant remaining + done == docs0.Keys && remaining !! done
      invariant repo.docs == WithTiplocs(docs0, done)
      decreases |remaining|
    {
      var k :| k in remaining;
      FixStopPoint(repo, docs0, done, k);
      TakeOne(remaining, done, k);
      done := done + {k};
      remaining := remaining - {k};
    }
    assert done == docs0.Keys;
  }

  /** Before the first stop is visited nothing is rewritten. */
  lemma WithTiplocsNone(docs: map<string, StopPoint>)
    ensures WithTiplocs(docs, {}) == docs
  {
  }

    /** One turn of the cursor loop: the stop under `k` is written back with its tiploc. */
  method FixStopPoint(repo: StopPointRepository, ghost docs0: map<string, StopPoint>, ghost done: set<string>, k: string)
    requires KeyedById(docs0) && k in docs0 && k !in done
    requires repo.docs == WithTiplocs(docs0, done)
    modifies repo
    ensures repo.docs == WithTiplocs(docs0, done + {k})
  {
    var stop := repo.docs[k];
    stop := stop.(tiploc := Some(IdToTiploc(stop.id)));
    assert stop.id == k;
    repo.docs := repo.docs[stop.id := stop];
  }

  /** After the repair each stop's tiploc is the letters of its id, and all its
      other fields are as before. */
  lemma WithTiplocsMeaning(docs: map<string, StopPoint>, k: string)
    requires k in docs
    ensures var s := WithTiplocs(docs, docs.Keys)[k];
            s.tiploc.Some? && s.tiploc.value == IdToTiploc(docs[k].id)
            && s.(tiploc := docs[k].tiploc) == docs[k]
            && forall i :: 0 <= i < |s.tiploc.value| ==> IsAlphabetic(s.tiploc.value[i])
  {
  }
}
