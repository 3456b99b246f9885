/** The parts of `App.tsx` that keep the chosen places in the page URL: every
    place is one `locations` search parameter, written with `toString` and read
    back with `fromString`. */
module AppTs {
  import opened LocationTs

  /** `LOCATIONS_SEARCH_PARAM`. */
  const LocationsParam := "locations"

  /** `searchParams.getAll(name)`: the values of the name, in order. */
  function GetAll(entries: seq<(string, string)>, name: string): (values: seq<string>)
    ensures |values| <= |entries|
    ensures forall v :: v in values <==> (name, v) in entries
    decreases |entries|
  {
    if entries == [] then []
    else
      var n := |entries| - 1;
      assert entries == entries[..n] + [entries[n]];
      GetAll(entries[..n], name) + if entries[n].0 == name then [entries[n].1] else []
  }

  /** The entries left after `searchParams.delete(name)`. */
  function Without(entries: seq<(string, string)>, name: string): (rest: seq<(string, string)>)
    ensures |rest| <= |entries|
    ensures forall e :: e in rest <==> e in entries && e.0 != name
    decreases |entries|
  {
    if entries == [] then []
    else
      var n := |entries| - 1;
      assert entries == entries[..n] + [entries[n]];
      Without(entries[..n], name) + if entries[n].0 != name then [entries[n]] else []
  }

  /** `getLocsFromUrl`: every `locations` value, in order, through `fromString`. */
  function GetLocsFromUrl(entries: seq<(string, string)>): (ls: seq<Location>)
    ensures |ls| == |GetAll(entries, LocationsParam)|
    ensures forall k :: 0 <= k < |ls| ==> ls[k] == FromString(GetAll(entries, LocationsParam)[k])
  {
    var values := GetAll(entries, LocationsParam);
    seq(|values|, k requires 0 <= k < |values| => FromString(values[k]))
  }

  /** The page's `URLSearchParams`, as its list of name/value entries. */
  class SearchParams {
    var entries: seq<(string, string)>

    constructor (entries0: seq<(string, string)>)
      ensures entries == entries0
    {
      entries := entries0;
    }

    /** `delete(name)`: drops every entry of the name, keeping the others in order. */
    method Delete(name: string)
      modifies this
      ensures entries == Without(old(entries), name)
    {
      entries := Without(entries, name);
    }

    /** `append(name, value)`. */
    method Append(name: string, value: string)
      modifies this
      ensures entries == old(entries) + [(name, value)]
    {
      entries := entries + [(name, value)];
    }
  }

  /** The entries that writing the places adds, one per place, in order. */
  function LocationEntries(name: string, ls: seq<Location>, show: real -> string): (es: seq<(string, string)>)
    ensures |es| == |ls|
    ensures forall k :: 0 <= k < |ls| ==> es[k] == (name, ToString(ls[k], show))
  {
    seq(|ls|, k requires 0 <= k < |ls| => (name, ToString(ls[k], show)))
  }

  /** `setArrayParam`: replaces every entry of the name by one entry per
      element, in order; each place is written with `toString`. */
  method SetArrayParam(sp: SearchParams, name: string, places: seq<Location>, show: real -> string)
    modifies sp
    ensures sp.entries == Without(old(sp.entries), name) + LocationEntries(name, places, show)
  {
    sp.Delete(name);
    if |places| > 0 {
      for k := 0 to |places|
        invariant sp.entries == Without(old(sp.entries), name) + LocationEntries(name, places[..k], show)
      {
        assert LocationEntries(name, places[..k + 1], show)
               == LocationEntries(name, places[..k], show) + [(name, ToString(places[k], show))];
        sp.Append(name, ToString(places[k], show));
      }
      assert places[..|places|] == places;
    }
  }

  /** The values of a name after the others are dropped and new entries added
      are exactly the new ones. */
  lemma GetAllAfterSet(entries: seq<(string, string)>, name: string, added: seq<(string, string)>)
    requires forall k :: 0 <= k < |added| ==> added[k].0 == name
    ensures var values := GetAll(Without(entries, name) + added, name);
            |values| == |added| && forall k :: 0 <= k < |added| ==> values[k] == added[k].1
  {
    var rest := Without(entries, name);
    NoneLeft(entries, name);
    GetAllAppend(rest, added, name);
    assert GetAll(rest + added, name) == GetAll(added, name);
    GetAllOfNamed(added, name);
  }

  /** The values of a name in two lists of entries, one after the other. */
  lemma {:induction false} GetAllAppend(a: seq<(string, string)>, b: seq<(string, string)>, name: string)
    ensures GetAll(a + b, name) == GetAll(a, name) + GetAll(b, name)
    decreases |b|
  {
    if b == [] {
      assert a + b == a;
    } else {
      var n := |b| - 1;
      GetAllAppend(a, b[..n], name);
      assert (a + b)[..|a + b| - 1] == a + b[..n] && (a + b)[|a + b| - 1] == b[n];
    }
  }

  /** Entries all of the name give their values, in order. */
  lemma {:induction false} GetAllOfNamed(added: seq<(string, string)>, name: string)
    requires forall k :: 0 <= k < |added| ==> added[k].0 == name
    ensures var values := GetAll(added, name);
            |values| == |added| && forall k :: 0 <= k < |added| ==> values[k] == added[k].1
    decreases |added|
  {
    if added != [] {
      var n := |added| - 1;
      GetAllOfNamed(added[..n], name);
    }
  }

  /** After `delete(name)` no value of the name is left. */
  lemma {:induction false} NoneLeft(entries: seq<(string, string)>, name: string)
    ensures GetAll(Without(entries, name), name) == []
    decreases |entries|
  {
    if entries != [] {
      var n := |entries| - 1;
      NoneLeft(entries[..n], name);
      var rest := Without(entries, name);
      if entries[n].0 != name {
        assert rest[..|rest| - 1] == Without(entries[..n], name) && rest[|rest| - 1] == entries[n];
      } else {
        assert rest == Without(entries[..n], name);
      }
    }
  }

  /** Writing the places into the URL and reading them back gives them back,
      whatever else the URL holds, as long as no name has a comma. */
  lemma UrlRoundTrip(entries: seq<(string, string)>, ls: seq<Location>, show: real -> string)
    requires forall k :: 0 <= k < |ls| ==> ',' !in ls[k].name
    requires forall k :: 0 <= k < |ls| ==> ShowsFaithfully(show, ls[k].lat) && ShowsFaithfully(show, ls[k].lng)
    ensures GetLocsFromUrl(Without(entries, LocationsParam) + LocationEntries(LocationsParam, ls, show)) == ls
  {
    var added := LocationEntries(LocationsParam, ls, show);
    GetAllAfterSet(entries, LocationsParam, added);
    forall k | 0 <= k < |ls|
      ensures FromString(ToString(ls[k], show)) == ls[k]
    {
      FromStringToString(ls[k], show);
    }
  }
}
