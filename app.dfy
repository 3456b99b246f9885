/** The state logic of the map page (`App.jsx`, and the parts `App.tsx` shares
    with it): editing the list of chosen places, fetching the travel times for
    each, keeping the longest journey to every destination, and choosing the
    first bound so that the innermost ring is never empty. */
module App {
  import opened Wrappers
  import opened Text
  import opened JourneyApi
  import opened LocationTs
  import opened Config
  import Circles

  // ------------------------------------------------------------ list edits

  /** `[...list, x]`. */
  function Append<T>(s: seq<T>, x: T): (r: seq<T>)
    ensures |r| == |s| + 1 && r[..|s|] == s && r[|s|] == x
  {
    s + [x]
  }

  /** `list.filter((_, i) => i !== idx)`, element by element. */
  function RemoveAt<T>(s: seq<T>, idx: int): (r: seq<T>)
    ensures 0 <= idx < |s| ==> r == s[..idx] + s[idx + 1..]
    ensures !(0 <= idx < |s|) ==> r == s
    decreases |s|
  {
    if s == [] then []
    else
      var n := |s| - 1;
      var front := RemoveAt(s[..n], idx);
      assert s[..n] + [s[n]] == s;
      if idx == n then front else
        assert 0 <= idx < n ==> s[..n][..idx] == s[..idx] && s[..n][idx + 1..] + [s[n]] == s[idx + 1..];
        front + [s[n]]
  }

  /** `copy = [...list]; copy[idx] = x`, for an index inside the list. */
  function ReplaceAt<T>(s: seq<T>, idx: nat, x: T): (r: seq<T>)
    requires idx < |s|
    ensures |r| == |s| && r[idx] == x
    ensures forall k :: 0 <= k < |s| && k != idx ==> r[k] == s[k]
  {
    s[idx := x]
  }

  /** Deleting what was just added gives the list back. */
  lemma RemoveAppended<T>(s: seq<T>, x: T)
    ensures RemoveAt(Append(s, x), |s|) == s
  {
    assert Append(s, x)[..|s|] == s;
  }

  /** Replacing an element and then deleting it is the same as deleting it. */
  lemma RemoveReplaced<T>(s: seq<T>, idx: nat, x: T)
    requires idx < |s|
    ensures RemoveAt(ReplaceAt(s, idx, x), idx) == RemoveAt(s, idx)
  {
    var r := ReplaceAt(s, idx, x);
    assert r[..idx] == s[..idx];
    assert r[idx + 1..] == s[idx + 1..];
  }

  // ------------------------------------------------------- longest journeys

  /** The lists of `Object.values(allData)` one after the other. */
  function Flatten(data: seq<seq<Journey>>): (ps: seq<Journey>)
    decreases |data|
  {
    if data == [] then [] else Flatten(data[..|data| - 1]) + data[|data| - 1]
  }

  /** The dictionary after visiting the journeys in order: a journey replaces the
      entry of its destination when there is none or the entry is strictly
      shorter. */
  function LongestOf(ps: seq<Journey>): (d: map<string, Journey>)
    decreases |ps|
  {
    if ps == [] then map[]
    else
      var d := LongestOf(ps[..|ps| - 1]);
      var p := ps[|ps| - 1];
      var key := p.destination.id;
      if key !in d || d[key].minutes < p.minutes then d[key := p] else d
  }

  /** `determineLongestPath`: the two nested loops over the fetched lists. */
  method DetermineLongestPath(data: seq<seq<Journey>>) returns (longest: map<string, Journey>)
    ensures longest == LongestOf(Flatten(data))
  {
    longest := map[];
    for i := 0 to |data|
      invariant longest == LongestOf(Flatten(data[..i]))
    {
      assert data[..i + 1][..i] == data[..i];
      ghost var seen := Flatten(data[..i]);
      var ps := data[i];
      assert seen + ps[..0] == seen;
      for j := 0 to |ps|
        invariant longest == LongestOf(seen + ps[..j])
      {
        assert (seen + ps[..j + 1])[..|seen| + j] == seen + ps[..j];
        var path := ps[j];
        var key := path.destination.id;
        if key !in longest || longest[key].minutes < path.minutes {
          longest := longest[path.destination.id := path];
        }
      }
      assert seen + ps[..|ps|] == Flatten(data[..i + 1]);
    }
    assert data[..|data|] == data;
  }

  /** `order` lists every key of the dictionary exactly once: the order in which
      `Object.values` visits its entries. */
  predicate ListsKeysOnce(order: seq<string>, d: map<string, Journey>)
  {
    (forall k :: 0 <= k < |order| ==> order[k] in d)
    && (forall id :: id in d ==> exists k :: 0 <= k < |order| && order[k] == id)
    && forall i, j :: 0 <= i < j < |order| ==> order[i] != order[j]
  }

  /** `Object.values(d)` when the keys are visited in `order`. */
  function ValuesIn(d: map<string, Journey>, order: seq<string>): (vs: seq<Journey>)
    requires forall k :: 0 <= k < |order| ==> order[k] in d
    ensures |vs| == |order|
    ensures forall k :: 0 <= k < |order| ==> vs[k] == d[order[k]]
  {
    seq(|order|, k requires 0 <= k < |order| => d[order[k]])
  }

  /** `makeCircles` of `App.jsx`: the circles of the longest journey to every
      destination, bound by bound, then reversed. Exactly one circle is drawn per
      bound and destination whose longest journey is shorter than the bound. */
  method MakeLongestCircles(longest: map<string, Journey>, order: seq<string>, bounds: seq<int>)
    returns (circles: seq<Circles.Circle>)
    requires ListsKeysOnce(order, longest)
    ensures circles == Circles.Reverse(Circles.InOrder(ValuesIn(longest, order), bounds))
    ensures forall c :: c in circles <==>
              exists idx, id :: 0 <= idx < |bounds| && id in longest && longest[id].minutes < bounds[idx]
                                && c == Circles.MakeCircle(longest[id], bounds[idx], Circles.Colour(idx))
  {
    var values := ValuesIn(longest, order);
    circles := Circles.MakeCircles(values, bounds);
    var drawn := Circles.InOrder(values, bounds);
    Circles.InOrderMembers(values, bounds);
    forall c
      ensures c in circles <==>
              exists idx, id :: 0 <= idx < |bounds| && id in longest && longest[id].minutes < bounds[idx]
                                && c == Circles.MakeCircle(longest[id], bounds[idx], Circles.Colour(idx))
    {
      ReversedMembers(drawn, c);
      if exists idx, id :: 0 <= idx < |bounds| && id in longest && longest[id].minutes < bounds[idx]
                           && c == Circles.MakeCircle(longest[id], bounds[idx], Circles.Colour(idx)) {
        var idx, id :| 0 <= idx < |bounds| && id in longest && longest[id].minutes < bounds[idx]
                       && c == Circles.MakeCircle(longest[id], bounds[idx], Circles.Colour(idx));
        var k :| 0 <= k < |order| && order[k] == id;
        assert values[k] == longest[id];
      }
    }
  }

  /** Reversing keeps the elements. */
  lemma ReversedMembers<T>(s: seq<T>, x: T)
    ensures x in Circles.Reverse(s) <==> x in s
  {
    var r := Circles.Reverse(s);
    if x in s {
      var k :| 0 <= k < |s| && s[k] == x;
      assert r[|s| - 1 - k] == x;
    }
    if x in r {
      var k :| 0 <= k < |r| && r[k] == x;
      assert s[|s| - 1 - k] == x;
    }
  }

  /** The dictionary has an entry for exactly the destinations reached. */
  lemma {:induction false} LongestOfKeys(ps: seq<Journey>)
    ensures forall id :: id in LongestOf(ps) <==> exists k :: 0 <= k < |ps| && ps[k].destination.id == id
    decreases |ps|
  {
    if ps != [] {
      var n := |ps| - 1;
      var front := ps[..n];
      LongestOfKeys(front);
      assert forall k :: 0 <= k < n ==> front[k] == ps[k];
    }
  }

  /** Journey `k` is the one kept for `id`: it goes there, no journey there is
      longer, and every earlier one there is strictly shorter. */
  predicate KeptAt(ps: seq<Journey>, id: string, k: int, p: Journey)
  {
    0 <= k < |ps| && ps[k] == p && p.destination.id == id
    && (forall k' :: 0 <= k' < |ps| && ps[k'].destination.id == id ==> ps[k'].minutes <= p.minutes)
    && (forall k' :: 0 <= k' < k && ps[k'].destination.id == id ==> ps[k'].minutes < p.minutes)
  }

  /** Each entry is a journey to its destination that no other journey there
      beats, and on ties the first one seen. */
  lemma {:induction false} LongestOfEntry(ps: seq<Journey>, id: string)
    requires id in LongestOf(ps)
    ensures exists k :: KeptAt(ps, id, k, LongestOf(ps)[id])
    decreases |ps|
  {
    var n := |ps| - 1;
    var front := ps[..n];
    assert forall k :: 0 <= k < n ==> front[k] == ps[k];
    var d0 := LongestOf(front);
    var p := ps[n];
    if id == p.destination.id && (id !in d0 || d0[id].minutes < p.minutes) {
      LongestOfKeys(front);
      if id in d0 {
        LongestOfEntry(front, id);
      }
      assert KeptAt(ps, id, n, p);
    } else {
      LongestOfEntry(front, id);
      var k :| KeptAt(front, id, k, d0[id]);
      assert KeptAt(ps, id, k, d0[id]);
    }
  }

  // ---------------------------------------------------------------- bounds

  /** `Math.min` of the journeys' minutes; `None` stands for the `Infinity` of
      an empty list. */
  function Shortest(js: seq<Journey>): (m: Option<int>)
    ensures m.None? <==> js == []
    ensures m.Some? ==> (exists k :: 0 <= k < |js| && js[k].minutes == m.value)
                        && forall k :: 0 <= k < |js| ==> m.value <= js[k].minutes
    decreases |js|
  {
    if js == [] then None
    else
      var n := |js| - 1;
      var rest := Shortest(js[..n]);
      assert forall k :: 0 <= k < n ==> js[..n][k] == js[k];
      if rest.Some? && rest.value <= js[n].minutes then rest else Some(js[n].minutes)
  }

  /** `computeBounds`: the first bound becomes the shortest journey plus the
      minimum gap, but never more than the second bound; the other bounds stay.
      With no journeys `Infinity + minBoundSize` loses to the second bound. */
  function ComputeBounds(bounds: seq<int>, js: seq<Journey>): (r: seq<int>)
    requires |bounds| >= 2
    ensures |r| == |bounds| && r[1..] == bounds[1..]
    ensures r[0] <= bounds[1]
    ensures js == [] ==> r[0] == bounds[1]
    ensures js != [] ==> r[0] == if Shortest(js).value + MinBoundSize <= bounds[1]
                                 then Shortest(js).value + MinBoundSize else bounds[1]
  {
    var first := match Shortest(js)
      case None => bounds[1]
      case Some(s) => if s + MinBoundSize <= bounds[1] then s + MinBoundSize else bounds[1];
    bounds[0 := first]
  }

  /** The innermost ring is never empty when it can help it: some journey is
      shorter than the new first bound exactly when some journey is shorter than
      the second bound. */
  lemma ComputeBoundsFirstRing(bounds: seq<int>, js: seq<Journey>)
    requires |bounds| >= 2
    ensures (exists k :: 0 <= k < |js| && js[k].minutes < ComputeBounds(bounds, js)[0])
            <==> (exists k :: 0 <= k < |js| && js[k].minutes < bounds[1])
  {
    if exists k :: 0 <= k < |js| && js[k].minutes < bounds[1] {
      var k :| 0 <= k < |js| && js[k].minutes < bounds[1];
      var s := Shortest(js).value;
      var i :| 0 <= i < |js| && js[i].minutes == s;
      assert js[i].minutes < ComputeBounds(bounds, js)[0];
    }
  }

  // ------------------------------------------------------------- fetching

  /** The cache key of one place: its coordinates joined by ',', then the time. */
  function Key(coords: seq<Num>, time: string, show: real -> string): (key: string)
    ensures |key| > |time| && key[|key| - |time| - 1..] == ['/'] + time
  {
    Join(seq(|coords|, k requires 0 <= k < |coords| => ShowNum(coords[k], show)), ',') + "/" + time
  }

  /** The data for one key: the cached copy if there is one, otherwise what the
      back end answers for the key's URL. */
  function Lookup(key: string, cache: map<string, seq<Journey>>, backendUrl: string,
                  respond: string -> seq<Journey>): (data: seq<Journey>)
    ensures key in cache ==> data == cache[key]
    ensures key !in cache ==> data == respond(backendUrl + "traveltime/" + key)
  {
    if key in cache then cache[key] else respond(backendUrl + "traveltime/" + key)
  }

  /** For one place, `fetchAllData` requests the same URL as `queryJourneys`. */
  lemma KeyUrlIsQueryUrl(backendUrl: string, l: Location, time: string, show: real -> string)
    ensures backendUrl + "traveltime/" + Key([l.lat, l.lng], time, show) == QueryUrl(backendUrl, [l], time, show)
  {
    var coords := [l.lat, l.lng];
    assert seq(|coords|, k requires 0 <= k < |coords| => ShowNum(coords[k], show))
           == [ShowNum(l.lat, show), ShowNum(l.lng, show)];
    assert Key(coords, time, show) == ToCoordString(l, show) + "/" + time;
    assert ToKey([l], show) == ToCoordString(l, show);
  }

  /** The data collected for the places, in order. */
  function Entries(coordsList: seq<seq<Num>>, time: string, show: real -> string,
                   cache: map<string, seq<Journey>>, backendUrl: string,
                   respond: string -> seq<Journey>): (m: map<string, seq<Journey>>)
    decreases |coordsList|
  {
    if coordsList == [] then map[]
    else
      var n := |coordsList| - 1;
      var key := Key(coordsList[n], time, show);
      Entries(coordsList[..n], time, show, cache, backendUrl, respond)[key := Lookup(key, cache, backendUrl, respond)]
  }

  /** The collected data has one entry per place. */
  lemma {:induction false} EntriesKeys(coordsList: seq<seq<Num>>, time: string, show: real -> string,
                                      cache: map<string, seq<Journey>>, backendUrl: string,
                                      respond: string -> seq<Journey>)
    ensures forall key :: key in Entries(coordsList, time, show, cache, backendUrl, respond) <==>
              exists k :: 0 <= k < |coordsList| && Key(coordsList[k], time, show) == key
    decreases |coordsList|
  {
    if coordsList != [] {
      var n := |coordsList| - 1;
      EntriesKeys(coordsList[..n], time, show, cache, backendUrl, respond);
      assert forall k :: 0 <= k < n ==> coordsList[..n][k] == coordsList[k];
    }
  }

  /** Every entry holds the cached or the fetched data for its key. */
  lemma {:induction false} EntriesValues(coordsList: seq<seq<Num>>, time: string, show: real -> string,
                                        cache: map<string, seq<Journey>>, backendUrl: string,
                                        respond: string -> seq<Journey>, key: string)
    requires key in Entries(coordsList, time, show, cache, backendUrl, respond)
    ensures Entries(coordsList, time, show, cache, backendUrl, respond)[key] == Lookup(key, cache, backendUrl, respond)
    decreases |coordsList|
  {
    var n := |coordsList| - 1;
    if key != Key(coordsList[n], time, show) {
      EntriesValues(coordsList[..n], time, show, cache, backendUrl, respond, key);
    }
  }

  /** The first place whose key is not cached, if any. */
  function FirstUncached(coordsList: seq<seq<Num>>, time: string, show: real -> string,
                         cache: map<string, seq<Journey>>): (u: Option<nat>)
    ensures u.Some? ==> u.value < |coordsList| && Key(coordsList[u.value], time, show) !in cache
                        && forall k :: 0 <= k < u.value ==> Key(coordsList[k], time, show) in cache
    ensures u.None? ==> forall k :: 0 <= k < |coordsList| ==> Key(coordsList[k], time, show) in cache
    decreases |coordsList|
  {
    if coordsList == [] then None
    else if Key(coordsList[0], time, show) !in cache then Some(0)
    else
      match FirstUncached(coordsList[1..], time, show, cache)
      case None => None
      case Some(u) => Some(u + 1)
  }

  /** `fetchAllData` as written: it returns as soon as it has fetched one
      uncached place, dropping the places after it, and when every place is
      cached it returns data only if the cache held more keys than there are
      places (`None` is the `undefined` it returns otherwise). */
  method FetchAllDataAsWritten(coordsList: seq<seq<Num>>, time: string, show: real -> string,
                               cache: map<string, seq<Journey>>, backendUrl: string,
                               respond: string -> seq<Journey>)
    returns (r: Option<map<string, seq<Journey>>>)
    ensures coordsList == [] ==> r == Some(map[])
    ensures coordsList != [] ==>
              r == match FirstUncached(coordsList, time, show, cache)
                   case Some(u) => Some(Entries(coordsList[..u + 1], time, show, cache, backendUrl, respond))
                   case None => if |cache.Keys| > |coordsList| then Some(Entries(coordsList, time, show, cache, backendUrl, respond))
                                else None
  {
    if |coordsList| == 0 {
      return Some(map[]);
    }
    var newData := map[];
    for i := 0 to |coordsList|
      invariant newData == Entries(coordsList[..i], time, show, cache, backendUrl, respond)
      invariant forall k :: 0 <= k < i ==> Key(coordsList[k], time, show) in cache
    {
      assert coordsList[..i + 1][..i] == coordsList[..i];
      var key := Key(coordsList[i], time, show);
      if key in cache {
        newData := newData[key := cache[key]];
      } else {
        var url := backendUrl + "traveltime/" + key;
        var response := respond(url);
        newData := newData[key := response];
        FirstUncachedAt(coordsList, time, show, cache, i);
        return Some(newData);
      }
    }
    assert coordsList[..|coordsList|] == coordsList;
    FirstUncachedNone(coordsList, time, show, cache);
    if |cache.Keys| > |coordsList| {
      return Some(newData);
    }
    return None;
  }

  /** The first uncached place is the first one the loop finds uncached. */
  lemma {:induction false} FirstUncachedAt(coordsList: seq<seq<Num>>, time: string, show: real -> string,
                                          cache: map<string, seq<Journey>>, i: nat)
    requires i < |coordsList| && Key(coordsList[i], time, show) !in cache
    requires forall k :: 0 <= k < i ==> Key(coordsList[k], time, show) in cache
    ensures FirstUncached(coordsList, time, show, cache) == Some(i)
    decreases i
  {
    if i > 0 {
      FirstUncachedAt(coordsList[1..], time, show, cache, i - 1);
    }
  }

  /** With every place cached there is no first uncached place. */
  lemma {:induction false} FirstUncachedNone(coordsList: seq<seq<Num>>, time: string, show: real -> string,
                                            cache: map<string, seq<Journey>>)
    requires forall k :: 0 <= k < |coordsList| ==> Key(coordsList[k], time, show) in cache
    ensures FirstUncached(coordsList, time, show, cache) == None
    decreases |coordsList|
  {
    if coordsList != [] {
      FirstUncachedNone(coordsList[1..], time, show, cache);
    }
  }

  /** `fetchAllData` as evidently intended: the data of every place, cached or
      fetched, whatever the size of the cache. */
  method FetchAllData(coordsList: seq<seq<Num>>, time: string, show: real -> string,
                      cache: map<string, seq<Journey>>, backendUrl: string,
                      respond: string -> seq<Journey>)
    returns (newData: map<string, seq<Journey>>)
    ensures newData == Entries(coordsList, time, show, cache, backendUrl, respond)
  {
    newData := map[];
    for i := 0 to |coordsList|
      invariant newData == Entries(coordsList[..i], time, show, cache, backendUrl, respond)
    {
      assert coordsList[..i + 1][..i] == coordsList[..i];
      var key := Key(coordsList[i], time, show);
      if key in cache {
        newData := newData[key := cache[key]];
      } else {
        var url := backendUrl + "traveltime/" + key;
        newData := newData[key := respond(url)];
      }
    }
    assert coordsList[..|coordsList|] == coordsList;
  }

  /** As written, with nothing cached and two places, only the first place's
      data comes back. */
  lemma FetchStopsAfterFirst(time: string, show: real -> string, backendUrl: string, respond: string -> seq<Journey>)
    ensures var coordsList := [[NaN], [NaN, NaN]];
            var second := Key([NaN, NaN], time, show);
            FirstUncached(coordsList, time, show, map[]) == Some(0)
            && second !in Entries(coordsList[..1], time, show, map[], backendUrl, respond)
            && second in Entries(coordsList, time, show, map[], backendUrl, respond)
  {
    var coordsList := [[NaN], [NaN, NaN]];
    var first := Key([NaN], time, show);
    var second := Key([NaN, NaN], time, show);
    var one := seq(1, k requires 0 <= k < 1 => ShowNum([NaN][k], show));
    var two := seq(2, k requires 0 <= k < 2 => ShowNum([NaN, NaN][k], show));
    assert one == ["NaN"] && two == ["NaN", "NaN"];
    assert two[1..] == ["NaN"];
    assert first == "NaN/" + time && second == "NaN,NaN/" + time;
    assert first != second by { assert first[3] == '/' && second[3] == ','; }
    assert coordsList[..1] == [[NaN]];
    assert coordsList[..1][..0] == [];
    assert coordsList[..1] == coordsList[..|coordsList| - 1];
  }

  /** As written, when the one place is already cached the result is
      `undefined`, although its data is at hand. */
  lemma FetchUndefinedWhenCached(c: seq<Num>, time: string, show: real -> string, data: seq<Journey>)
    ensures var cache := map[Key(c, time, show) := data];
            FirstUncached([c], time, show, cache) == None && !(|cache.Keys| > |[c]|)
  {
    var cache := map[Key(c, time, show) := data];
    assert cache.Keys == {Key(c, time, show)};
  }
}
