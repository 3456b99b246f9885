/** The front end's `Location`: a name and a latitude/longitude pair, written
    into the page URL as "name,lat,lng" and read back from it. */
module LocationTs {
  import opened Wrappers
  import opened Text

  /** A JavaScript number as far as the front end uses it: a finite value or `NaN`. */
  datatype Num = Num(v: real) | NaN

  /** `new Location(name, [lat, lng])`: the constructor keeps both as given. */
  datatype Location = Location(name: string, lat: Num, lng: Num)

  /** `parseFloat` of a field of `split`, where a missing field is `undefined`
      and parses as `NaN`. */
  function ParseFloat(field: Option<string>): (n: Num)
    ensures field.None? ==> n == NaN
    ensures field.Some? && ParseF64(field.value).Some? ==> n == Num(ParseF64(field.value).value)
    ensures field.Some? && ParseF64(field.value).None? ==> n == NaN
  {
    match field
    case None => NaN
    case Some(s) =>
      match ParseF64(s)
      case Some(v) => Num(v)
      case None => NaN
  }

  /** Field `i` of a split, or `None` past the end. */
  function Field(parts: seq<string>, i: nat): Option<string>
  {
    if i < |parts| then Some(parts[i]) else None
  }

  /** `Location.fromString`: the first three comma-separated fields are the
      name and the two coordinates; further fields are ignored. */
  function FromString(s: string): (l: Location)
    ensures l.name == Split(s, ',')[0]
    ensures ',' !in l.name
    ensures l.lat == ParseFloat(Field(Split(s, ','), 1)) && l.lng == ParseFloat(Field(Split(s, ','), 2))
  {
    var parts := Split(s, ',');
    assert parts[0] in parts;
    Location(parts[0], ParseFloat(Field(parts, 1)), ParseFloat(Field(parts, 2)))
  }

  /** A number in a template string: `NaN`, or the engine's decimal form of
      the value, given as `show`. */
  function ShowNum(n: Num, show: real -> string): string
  {
    match n
    case NaN => "NaN"
    case Num(v) => show(v)
  }

  /** `toString`: "name,lat,lng". */
  function ToString(l: Location, show: real -> string): (s: string)
    ensures s == Join([l.name, ShowNum(l.lat, show), ShowNum(l.lng, show)], ',')
  {
    var parts := [l.name, ShowNum(l.lat, show), ShowNum(l.lng, show)];
    assert parts[1..][1..] == [parts[2]];
    assert Join(parts[1..], ',') == parts[1] + [','] + parts[2];
    assert Join(parts, ',') == parts[0] + [','] + (parts[1] + [','] + parts[2]);
    l.name + [','] + ShowNum(l.lat, show) + [','] + ShowNum(l.lng, show)
  }

  /** What JavaScript's number-to-string promises: the text contains no comma
      and reads back as the same number. */
  predicate ShowsFaithfully(show: real -> string, n: Num)
  {
    n.Num? ==> ',' !in show(n.v) && ParseF64(show(n.v)) == Some(n.v)
  }

  /** `NaN` is written "NaN", which contains no comma and parses as `NaN`. */
  lemma ShowNaN(show: real -> string)
    ensures ',' !in ShowNum(NaN, show) && ParseFloat(Some(ShowNum(NaN, show))) == NaN
  {
    assert Split("NaN", '.') == ["NaN"] by { SplitNoSep("NaN", '.'); }
    assert !AllDigits("NaN") by { assert !IsDigit("NaN"[0]); }
  }

  /** Writing a location and reading it back gives it back, as long as its
      name has no comma. */
  lemma FromStringToString(l: Location, show: real -> string)
    requires ',' !in l.name
    requires ShowsFaithfully(show, l.lat) && ShowsFaithfully(show, l.lng)
    ensures FromString(ToString(l, show)) == l
  {
    var lat := ShowNum(l.lat, show);
    var lng := ShowNum(l.lng, show);
    ShowNaN(show);
    assert ',' !in lat && ',' !in lng;
    SplitJoin([l.name, lat, lng], ',');
    assert ParseFloat(Some(lat)) == l.lat;
    assert ParseFloat(Some(lng)) == l.lng;
  }

  /** A comma in the name cuts it short on the way back. */
  lemma CommaInNameIsLost(show: real -> string)
    ensures var l := Location("a,b", NaN, NaN);
            FromString(ToString(l, show)).name == "a" != l.name
  {
    var l := Location("a,b", NaN, NaN);
    assert ToString(l, show) == "a" + [','] + "b,NaN,NaN";
    SplitAtFirst("a", "b,NaN,NaN", ',');
  }
}
