/** The coloured rings on the map: for each travel-time bound, a circle around
    every destination reached within it, sized by how far one could still walk
    in the minutes left. */
module Circles {
  import opened Stations
  import opened JourneyApi
  import opened Config

  /** `colours[idx]`; past the end of the list JavaScript yields `undefined`,
      which turns into "undefined" inside the key. */
  function Colour(idx: nat): string
  {
    if idx < |Colours| then Colours[idx] else "undefined"
  }

  /** The props of one `<Circle>`. */
  datatype Circle = Circle(center: Point, colour: string, walkingMinutes: int, radius: real, key: string)

  /** `makeCircle`: centred on the destination, with the minutes left before the
      bound to walk, keyed by destination id and colour. */
  function MakeCircle(j: Journey, boundMins: int, colour: string): (c: Circle)
    ensures c.key == j.destination.id + colour && c.colour == colour
    ensures c.center == j.destination.location
    ensures c.walkingMinutes + j.minutes == boundMins
    ensures c.radius == WalkingSpeed * (c.walkingMinutes as real + 0.5)
  {
    var walkingMinutes := boundMins - j.minutes;
    Circle(j.destination.location, colour, walkingMinutes, WalkingSpeed * (walkingMinutes as real + 0.5), j.destination.id + colour)
  }

  /** The circles of one bound: the journeys shorter than it, in order. */
  function Ring(js: seq<Journey>, bound: int, colour: string): (cs: seq<Circle>)
    ensures |cs| <= |js|
    ensures forall k :: 0 <= k < |cs| ==> cs[k].colour == colour && cs[k].walkingMinutes > 0 && cs[k].radius > 0.0
    decreases |js|
  {
    if js == [] then []
    else
      var last := js[|js| - 1];
      Ring(js[..|js| - 1], bound, colour) + if last.minutes < bound then [MakeCircle(last, bound, colour)] else []
  }

  /** How many journeys are shorter than the bound. */
  function CountWithin(js: seq<Journey>, bound: int): nat
    decreases |js|
  {
    if js == [] then 0
    else CountWithin(js[..|js| - 1], bound) + if js[|js| - 1].minutes < bound then 1 else 0
  }

  /** The circles in the order the loop pushes them: bound by bound. */
  function InOrder(js: seq<Journey>, bounds: seq<int>): (cs: seq<Circle>)
    ensures forall k :: 0 <= k < |cs| ==> cs[k].walkingMinutes > 0 && cs[k].radius > 0.0
    decreases |bounds|
  {
    if bounds == [] then []
    else InOrder(js, bounds[..|bounds| - 1]) + Ring(js, bounds[|bounds| - 1], Colour(|bounds| - 1))
  }

  /** The number of circles the bounds give, summed bound by bound. */
  function CountAll(js: seq<Journey>, bounds: seq<int>): nat
    decreases |bounds|
  {
    if bounds == [] then 0
    else CountAll(js, bounds[..|bounds| - 1]) + CountWithin(js, bounds[|bounds| - 1])
  }

  function Reverse<T>(s: seq<T>): (r: seq<T>)
    ensures |r| == |s|
    ensures forall k :: 0 <= k < |s| ==> r[k] == s[|s| - 1 - k]
    decreases |s|
  {
    if s == [] then [] else [s[|s| - 1]] + Reverse(s[..|s| - 1])
  }

  /** `makeCircles`: the rings pushed bound by bound, then reversed, so the
      outermost bound's circles come first and are drawn underneath. */
  method MakeCircles(js: seq<Journey>, bounds: seq<int>) returns (circles: seq<Circle>)
    ensures circles == Reverse(InOrder(js, bounds))
  {
    circles := [];
    var idx := 0;
    while idx < |bounds|
      invariant idx <= |bounds|
      invariant circles == InOrder(js, bounds[..idx])
    {
      assert bounds[..idx + 1][..idx] == bounds[..idx];
      circles := circles + Ring(js, bounds[idx], Colour(idx));
      idx := idx + 1;
    }
    assert bounds[..idx] == bounds;
    circles := Reverse(circles);
  }

  /** A ring holds exactly the circles of the journeys shorter than its bound,
      one per journey. */
  lemma {:induction false} RingMembers(js: seq<Journey>, bound: int, colour: string)
    ensures |Ring(js, bound, colour)| == CountWithin(js, bound)
    ensures forall c :: c in Ring(js, bound, colour) <==>
              exists k :: 0 <= k < |js| && js[k].minutes < bound && c == MakeCircle(js[k], bound, colour)
    decreases |js|
  {
    if js != [] {
      var front := js[..|js| - 1];
      var last := js[|js| - 1];
      var r := Ring(js, bound, colour);
      RingMembers(front, bound, colour);
      assert r == Ring(front, bound, colour) + if last.minutes < bound then [MakeCircle(last, bound, colour)] else [];
      forall c | c in r
        ensures exists k :: 0 <= k < |js| && js[k].minutes < bound && c == MakeCircle(js[k], bound, colour)
      {
        if c in Ring(front, bound, colour) {
          var k :| 0 <= k < |front| && front[k].minutes < bound && c == MakeCircle(front[k], bound, colour);
          assert js[k] == front[k];
        } else {
          assert js[|js| - 1].minutes < bound && c == MakeCircle(js[|js| - 1], bound, colour);
        }
      }
      forall c | exists k :: 0 <= k < |js| && js[k].minutes < bound && c == MakeCircle(js[k], bound, colour)
        ensures c in r
      {
        var k :| 0 <= k < |js| && js[k].minutes < bound && c == MakeCircle(js[k], bound, colour);
        if k < |front| {
          assert front[k] == js[k];
          assert c in Ring(front, bound, colour);
        }
      }
    }
  }

  /** The circles drawn are exactly, for every bound, those of the journeys
      shorter than it, coloured with that bound's colour; there is one per such
      pair of bound and journey. */
  lemma {:induction false} InOrderMembers(js: seq<Journey>, bounds: seq<int>)
    ensures |InOrder(js, bounds)| == CountAll(js, bounds)
    ensures forall c :: c in InOrder(js, bounds) <==>
              exists idx, k :: 0 <= idx < |bounds| && 0 <= k < |js| && js[k].minutes < bounds[idx]
                               && c == MakeCircle(js[k], bounds[idx], Colour(idx))
    decreases |bounds|
  {
    if bounds != [] {
      var n := |bounds| - 1;
      var front := bounds[..n];
      var r := InOrder(js, bounds);
      InOrderMembers(js, front);
      RingMembers(js, bounds[n], Colour(n));
      assert r == InOrder(js, front) + Ring(js, bounds[n], Colour(n));
      forall c | c in r
        ensures exists idx, k :: 0 <= idx < |bounds| && 0 <= k < |js| && js[k].minutes < bounds[idx]
                                 && c == MakeCircle(js[k], bounds[idx], Colour(idx))
      {
        if c in InOrder(js, front) {
          var idx, k :| 0 <= idx < |front| && 0 <= k < |js| && js[k].minutes < front[idx]
                        && c == MakeCircle(js[k], front[idx], Colour(idx));
          assert bounds[idx] == front[idx];
        } else {
          var k :| 0 <= k < |js| && js[k].minutes < bounds[n] && c == MakeCircle(js[k], bounds[n], Colour(n));
        }
      }
      forall c | exists idx, k :: 0 <= idx < |bounds| && 0 <= k < |js| && js[k].minutes < bounds[idx]
                                 && c == MakeCircle(js[k], bounds[idx], Colour(idx))
        ensures c in r
      {
        var idx, k :| 0 <= idx < |bounds| && 0 <= k < |js| && js[k].minutes < bounds[idx]
                      && c == MakeCircle(js[k], bounds[idx], Colour(idx));
        if idx == n {
          assert c in Ring(js, bounds[n], Colour(n));
        } else {
          assert front[idx] == bounds[idx];
          assert c in InOrder(js, front);
        }
      }
    }
  }

  /** Every circle drawn has a positive number of walking minutes left. */
  lemma WalkingMinutesPositive(js: seq<Journey>, bounds: seq<int>, c: Circle)
    requires c in InOrder(js, bounds)
    ensures c.walkingMinutes > 0 && c.radius > 0.0
  {
    InOrderMembers(js, bounds);
  }
}
