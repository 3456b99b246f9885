/** `Location::try_parse_loc`: reads "x,y" into a point. */
module GeoLocation {
  import opened Wrappers
  import opened Text
  import opened Stations

  /** Exactly two comma-separated fields, both numbers, give the point with the
      first as x and the second as y; anything else gives nothing. */
  function TryParseLoc(locString: string): (r: Option<Point>)
    ensures |Split(locString, ',')| != 2 ==> r.None?
    ensures |Split(locString, ',')| == 2 ==>
              (r.Some? <==> ParseF64(Split(locString, ',')[0]).Some? && ParseF64(Split(locString, ',')[1]).Some?)
    ensures r.Some? ==> r.value == Point(ParseF64(Split(locString, ',')[0]).value, ParseF64(Split(locString, ',')[1]).value)
  {
    var splitLoc := Split(locString, ',');
    if |splitLoc| == 2 then
      match (ParseF64(splitLoc[0]), ParseF64(splitLoc[|splitLoc| - 1]))
      case (Some(x), Some(y)) => Some(Point(x, y))
      case _ => None
    else None
  }

  /** Two fields free of the separator, joined by it. */
  lemma SplitPair(a: string, b: string, sep: char)
    requires sep !in a && sep !in b
    ensures Split(a + [sep] + b, sep) == [a, b]
  {
    SplitAtFirst(a, b, sep);
    SplitNoSep(b, sep);
  }

  /** Two whole numbers written "x,y" parse back as that point. */
  lemma TryParseLocOfIntegers(x: int, y: int)
    ensures TryParseLoc(IntToString(x) + "," + IntToString(y)) == Some(Point(x as real, y as real))
  {
    IntToStringAvoids(x, ',');
    IntToStringAvoids(y, ',');
    SplitPair(IntToString(x), IntToString(y), ',');
    ParseF64IntToString(x);
    ParseF64IntToString(y);
  }

  /** A string with no comma, or with more than one, is not a location. */
  lemma TryParseLocNeedsOneComma(a: string, b: string, c: string)
    requires ',' !in a && ',' !in b
    ensures TryParseLoc(a) == None
    ensures TryParseLoc(a + "," + b + "," + c) == None
  {
    SplitNoSep(a, ',');
    SplitAtFirst(a, b + "," + c, ',');
    SplitAtFirst(b, c, ',');
    assert a + "," + b + "," + c == a + [','] + (b + [','] + c);
  }

  /** A literal with a point in it is read as its whole and fractional digits. */
  lemma DecimalLiteral(whole: string, frac: string)
    requires AllDigits(whole) && AllDigits(frac)
    ensures ParseUnsignedDecimal(whole + "." + frac) == DecimalValue(whole, frac)
  {
    DigitsAvoid(whole, '.');
    DigitsAvoid(frac, '.');
    SplitPair(whole, frac, '.');
  }

  /** The coordinates of the library's own check, a point in west London. */
  lemma TryParseLocExample()
    ensures TryParseLoc("51.501105,-0.232320") == Some(Point(51.501105, -0.232320))
  {
    assert "51.501105,-0.232320" == "51.501105" + [','] + "-0.232320";
    SplitPair("51.501105", "-0.232320", ',');
    ExampleLatitude();
    ExampleLongitude();
  }

  lemma ExampleLatitude()
    ensures ParseF64("51.501105") == Some(51.501105)
  {
    DigitsOf("51", 51);
    assert NatToString(50) == "50";
    assert NatToString(501) == "501";
    assert NatToString(5011) == "5011";
    assert NatToString(50110) == "50110";
    assert NatToString(501105) == "501105";
    DigitsOf("501105", 501105);
    assert "51.501105" == "51" + "." + "501105";
    DecimalLiteral("51", "501105");
    FractionOfSix(501105);
  }

  lemma ExampleLongitude()
    ensures ParseF64("-0.232320") == Some(-0.232320)
  {
    DigitsOf("0", 0);
    assert NatToString(23) == "23";
    assert NatToString(232) == "232";
    assert NatToString(2323) == "2323";
    assert NatToString(23232) == "23232";
    assert NatToString(232320) == "232320";
    DigitsOf("232320", 232320);
    assert "-0.232320"[1..] == "0" + "." + "232320";
    DecimalLiteral("0", "232320");
    FractionOfSix(232320);
  }

  /** A numeral written out is the digit string of that number. */
  lemma DigitsOf(s: string, n: nat)
    requires s == NatToString(n)
    ensures AllDigits(s) && DigitsValue(s) == n
  {
    NatToStringValue(n);
  }

  /** Six digits after the point are millionths. */
  lemma FractionOfSix(v: nat)
    ensures Fraction(v, 6) == v as real / 1000000.0
  {
    assert Pow10(6) == 1000000;
  }
}
