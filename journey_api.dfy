/** The front end's client for the travel-time endpoint: the locations go into
    the URL path as "lat,lng" pairs joined by '_'. */
module JourneyApi {
  import opened Wrappers
  import opened Text
  import opened Stations
  import opened LocationTs

  /** One answer of the back end: a destination and the minutes to reach it
      (the path itself is not used by the code modelled here). */
  datatype Journey = Journey(minutes: int, destination: Station)

  /** `toCoordString`: the two coordinates joined by ','. */
  function ToCoordString(l: Location, show: real -> string): (s: string)
    ensures var lat := ShowNum(l.lat, show);
            |s| == |lat| + 1 + |ShowNum(l.lng, show)|
            && s[..|lat|] == lat && s[|lat|] == ',' && s[|lat| + 1..] == ShowNum(l.lng, show)
  {
    var parts := [ShowNum(l.lat, show), ShowNum(l.lng, show)];
    assert parts[1..] == [parts[1]];
    assert Join(parts, ',') == parts[0] + [','] + parts[1];
    Join(parts, ',')
  }

  /** A coordinate string splits back into the two numbers, which read back as
      the coordinates. */
  lemma ToCoordStringDecodes(l: Location, show: real -> string)
    requires ShowsFaithfully(show, l.lat) && ShowsFaithfully(show, l.lng)
    ensures Split(ToCoordString(l, show), ',') == [ShowNum(l.lat, show), ShowNum(l.lng, show)]
    ensures ParseFloat(Some(ShowNum(l.lat, show))) == l.lat && ParseFloat(Some(ShowNum(l.lng, show))) == l.lng
  {
    var parts := [ShowNum(l.lat, show), ShowNum(l.lng, show)];
    assert parts[1..] == [parts[1]];
    ShowNaN(show);
    SplitJoin(parts, ',');
  }

  /** `toKey`: the coordinate strings of all locations, in order, joined by '_'. */
  function ToKey(ls: seq<Location>, show: real -> string): (key: string)
    ensures key == [] <==> |ls| == 0
    ensures |ls| > 0 ==> var first := ToCoordString(ls[0], show);
                         |first| <= |key| && key[..|first|] == first
    ensures |ls| == 1 ==> key == ToCoordString(ls[0], show)
  {
    Join(seq(|ls|, k requires 0 <= k < |ls| => ToCoordString(ls[k], show)), '_')
  }

  /** The request URL for the locations and the departure time. */
  function QueryUrl(backendUrl: string, ls: seq<Location>, time: string, show: real -> string): (url: string)
    ensures |url| == |backendUrl| + 12 + |ToKey(ls, show)| + |time|
    ensures url[..|backendUrl|] == backendUrl
    ensures url[|url| - |time| - 1..] == ['/'] + time
  {
    backendUrl + "traveltime/" + ToKey(ls, show) + "/" + time
  }

  /** `queryJourneys`: no locations answers `[]` with no request; otherwise the
      answer is whatever the back end returns for the URL, given as `respond`.
      The result pairs the journeys with the URL requested, if any. */
  function QueryJourneys(backendUrl: string, ls: seq<Location>, time: string, show: real -> string,
                         respond: string -> seq<Journey>): (r: (seq<Journey>, Option<string>))
    ensures |ls| == 0 <==> r.1.None?
    ensures |ls| == 0 ==> r.0 == []
    ensures |ls| > 0 ==> r.1 == Some(QueryUrl(backendUrl, ls, time, show)) && r.0 == respond(r.1.value)
  {
    if |ls| == 0 then ([], None)
    else
      var url := QueryUrl(backendUrl, ls, time, show);
      (respond(url), Some(url))
  }

  /** The key determines the coordinates: it splits at '_' into one piece per
      location, and each piece splits at ',' into the two numbers, which read
      back as the location's coordinates. */
  lemma ToKeyDecodes(ls: seq<Location>, show: real -> string)
    requires |ls| > 0
    requires forall k :: 0 <= k < |ls| ==> ShowsFaithfully(show, ls[k].lat) && ShowsFaithfully(show, ls[k].lng)
    requires forall v: real :: '_' !in show(v)
    ensures |Split(ToKey(ls, show), '_')| == |ls|
    ensures forall k :: 0 <= k < |ls| ==>
              var fields := Split(Split(ToKey(ls, show), '_')[k], ',');
              |fields| == 2
              && ParseFloat(Some(fields[0])) == ls[k].lat && ParseFloat(Some(fields[1])) == ls[k].lng
  {
    var pieces := seq(|ls|, k requires 0 <= k < |ls| => ToCoordString(ls[k], show));
    forall p | p in pieces
      ensures '_' !in p
    {
      var k :| 0 <= k < |ls| && pieces[k] == p;
      ShowNaN(show);
      assert "NaN" == ShowNum(NaN, show);
      assert '_' !in "NaN";
      JoinAvoids([ShowNum(ls[k].lat, show), ShowNum(ls[k].lng, show)], ',', '_');
    }
    SplitJoin(pieces, '_');
    forall k | 0 <= k < |ls|
      ensures var fields := Split(pieces[k], ',');
              |fields| == 2
              && ParseFloat(Some(fields[0])) == ls[k].lat && ParseFloat(Some(fields[1])) == ls[k].lng
    {
      ToCoordStringDecodes(ls[k], show);
    }
  }
}
