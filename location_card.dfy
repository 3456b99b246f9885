/** The card listing the chosen places: a new place is refused when a place of
    the same name is already listed. */
module LocationCard {
  import opened LocationTs
  import App

  /** `names`: the listed places' names, in order. */
  function Names(ls: seq<Location>): (names: seq<string>)
    ensures |names| == |ls| && forall k :: 0 <= k < |ls| ==> names[k] == ls[k].name
  {
    seq(|ls|, k requires 0 <= k < |ls| => ls[k].name)
  }

  /** `onNewLoc`: the error message shown afterwards and the list of places
      after the `addLoc` call it makes, if it makes one. */
  function OnNewLoc(ls: seq<Location>, l: Location): (r: (string, seq<Location>))
    ensures (exists k :: 0 <= k < |ls| && ls[k].name == l.name) <==> r.0 == "No duplicates"
    ensures r.0 == "No duplicates" ==> r.1 == ls
    ensures r.0 != "No duplicates" ==> r.0 == "" && r.1 == App.Append(ls, l)
  {
    if l.name in Names(ls) then ("No duplicates", ls) else ("", App.Append(ls, l))
  }

  /** No two places share a name. */
  predicate DistinctNames(ls: seq<Location>)
  {
    forall i, j :: 0 <= i < j < |ls| ==> ls[i].name != ls[j].name
  }

  /** Adding places only through the card keeps the names distinct. */
  lemma OnNewLocKeepsNamesDistinct(ls: seq<Location>, l: Location)
    requires DistinctNames(ls)
    ensures DistinctNames(OnNewLoc(ls, l).1)
  {
    var r := OnNewLoc(ls, l).1;
    if r != ls {
      forall i, j | 0 <= i < j < |r|
        ensures r[i].name != r[j].name
      {
        if j == |ls| {
          assert r[i] == ls[i];
        } else {
          assert r[i] == ls[i] && r[j] == ls[j];
        }
      }
    }
  }
}
