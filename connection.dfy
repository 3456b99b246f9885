/** The weight of a graph edge: a travel duration plus, for scheduled hops, a
    table giving for every minute of the day how long one waits for the next
    departure. */
module Connection {
  import opened Wrappers
  import opened Panics
  import opened Times
  import opened DirectConnections

  const U16Max := 65535
  /** Walking speed used to turn a distance in metres into minutes. */
  const WalkingMetresPerMinute := 80.0

  datatype DepartureTime = Instantaneous | Timetable(table: seq<nat>)

  datatype Connection = Connection(durationMinutes: nat, departureTimes: DepartureTime)

  /** Rust's `f64 as u16`: truncation toward zero, saturating at both ends. */
  function SaturatingU16(x: real): (r: nat)
    ensures r <= U16Max
    ensures x <= 0.0 ==> r == 0
    ensures x >= U16Max as real ==> r == U16Max
    ensures 0.0 <= x < U16Max as real ==> r as real <= x < r as real + 1.0
  {
    if x <= 0.0 then 0 else if x >= U16Max as real then U16Max else x.Floor
  }

  /** The first departure in the list at or after minute `m`. */
  function NextDeparture(ds: seq<MinuteOfDay>, m: int): (r: Option<MinuteOfDay>)
    ensures r.Some? ==> r.value in ds && r.value >= m
    ensures r.None? <==> forall d :: d in ds ==> d < m
    decreases |ds|
  {
    if ds == [] then None
    else if ds[0] >= m then Some(ds[0])
    else
      assert forall d :: d in ds ==> d == ds[0] || d in ds[1..];
      NextDeparture(ds[1..], m)
  }

  /** In an increasing list the first departure not before `m` is the earliest one. */
  lemma {:induction false} NextDepartureIsEarliest(ds: seq<MinuteOfDay>, m: int, d: MinuteOfDay)
    requires Sorted(ds)
    requires d in ds && d >= m
    ensures NextDeparture(ds, m).Some? && NextDeparture(ds, m).value <= d
    decreases |ds|
  {
    if ds[0] < m {
      assert d in ds[1..] by { assert d != ds[0]; }
      NextDepartureIsEarliest(ds[1..], m, d);
    }
  }

  /** Looking in `a + b`: the answer from `a` if it has one, otherwise from `b`. */
  lemma {:induction false} NextDepartureAppend(a: seq<MinuteOfDay>, b: seq<MinuteOfDay>, m: int)
    ensures NextDeparture(a + b, m) ==
            if NextDeparture(a, m).Some? then NextDeparture(a, m) else NextDeparture(b, m)
    decreases |a|
  {
    if a != [] {
      assert (a + b)[0] == a[0];
      if a[0] < m {
        assert (a + b)[1..] == a[1..] + b;
        NextDepartureAppend(a[1..], b, m);
      }
    } else {
      assert a + b == b;
    }
  }

  /** Minutes from `m` until the next departure; 0 once the last one has left. */
  function Wait(ds: seq<MinuteOfDay>, m: int): nat
  {
    match NextDeparture(ds, m)
    case Some(d) => d - m
    case None => 0
  }

  /** Adding a departure `d` later than all others: the waits are unchanged up to
      the previous last departure, count down to `d` after it, and are 0 past `d`. */
  lemma WaitAppendLater(ds: seq<MinuteOfDay>, d: MinuteOfDay, m: nat)
    requires StrictlyIncreasing(ds) && (ds != [] ==> ds[|ds| - 1] < d)
    ensures var from := if ds == [] then 0 else ds[|ds| - 1] + 1;
            Wait(ds + [d], m) == if m < from then Wait(ds, m) else if m <= d then d - m else 0
  {
    NextDepartureAppend(ds, [d], m);
    if ds != [] && m <= ds[|ds| - 1] {
      assert ds[|ds| - 1] in ds;
    } else {
      forall x | x in ds
        ensures x < m
      {
        var i :| 0 <= i < |ds| && ds[i] == x;
        assert ds[i] <= ds[|ds| - 1];
      }
    }
  }

  /** The table `from_direct_connection` is meant to build, one entry per minute. */
  function WaitTable(ds: seq<MinuteOfDay>): seq<nat>
  {
    seq(MinutesPerDay, m => Wait(ds, m))
  }

  /** What a table entry means: waiting that long brings one to a departure (or,
      after the day's last one, the entry is 0), and no departure comes sooner. */
  lemma WaitTableMeaning(ds: seq<MinuteOfDay>, m: MinuteOfDay)
    requires StrictlyIncreasing(ds)
    ensures var w := WaitTable(ds)[m];
            (m + w in ds || (w == 0 && forall d :: d in ds ==> d < m))
            && forall d :: d in ds && m <= d ==> m + w <= d
  {
    forall d | d in ds && m <= d
      ensures m + WaitTable(ds)[m] <= d
    {
      NextDepartureIsEarliest(ds, m, d);
    }
  }

  /** The three-departure example: trains at 08:00, 08:10 and 08:25. */
  lemma WaitTableExample()
    ensures var t := WaitTable([480, 490, 505]);
            t[483] == 7 && t[490] == 0 && t[492] == 13 && t[505] == 0 && t[600] == 0 && t[0] == 480
  {
    var ds: seq<MinuteOfDay> := [480, 490, 505];
    assert NextDeparture(ds, 483) == Some(490);
    assert NextDeparture(ds, 492) == Some(505);
    assert NextDeparture(ds, 600) == None;
  }

  /** The edge weight a departure list stands for. */
  function ConnectionOf(con: DirectConnection): (c: Connection)
    ensures c.durationMinutes <= U16Max
    ensures c.departureTimes.Timetable? && |c.departureTimes.table| == MinutesPerDay
  {
    Connection(SaturatingU16(con.durationMinutes), Timetable(WaitTable(con.departureTimes)))
  }

  /** The inner loop of `from_direct_connection`: the minutes from `start` up to
      `end` get the countdown to `end`. */
  method CountDown(table: array<nat>, start: nat, end: nat)
    requires start <= end <= table.Length
    modifies table
    ensures forall m :: 0 <= m < table.Length ==>
              table[m] == if start <= m < end then end - m else old(table[m])
  {
    var minsUntilDepart := end - start;
    var i := start;
    while i < end
      invariant start <= i <= end
      invariant minsUntilDepart == end - i
      invariant forall m :: 0 <= m < table.Length ==>
                  table[m] == if start <= m < i then end - m else old(table[m])
    {
      table[i] := minsUntilDepart;
      minsUntilDepart := minsUntilDepart - 1;
      i := i + 1;
    }
  }

  /** The minute the outer loop starts counting from after `k` departures. */
  function StartAfter(ds: seq<MinuteOfDay>, k: nat): nat
    requires k <= |ds|
  {
    if k == 0 then 0 else ds[k - 1] as int + 1
  }

  /** The table after the first `k` departures: the waits up to the `k`-th
      departure, zeros after it. */
  predicate FilledUpTo(t: seq<nat>, ds: seq<MinuteOfDay>, k: nat)
    requires k <= |ds|
  {
    |t| == MinutesPerDay
    && forall m :: 0 <= m < MinutesPerDay ==> t[m] == if m < StartAfter(ds, k) then Wait(ds[..k], m) else 0
  }

  /** One pass of the outer loop, for a departure not earlier than the start. */
  method FillDeparture(table: array<nat>, ds: seq<MinuteOfDay>, k: nat)
    requires k < |ds| && StrictlyIncreasing(ds[..k]) && StartAfter(ds, k) <= ds[k]
    requires FilledUpTo(table[..], ds, k)
    modifies table
    ensures StrictlyIncreasing(ds[..k + 1]) && FilledUpTo(table[..], ds, k + 1)
  {
    var end: nat := ds[k];
    CountDown(table, StartAfter(ds, k), end);
    assert ds[..k + 1] == ds[..k] + [end];
    forall m | 0 <= m < MinutesPerDay
      ensures table[m] == if m < end + 1 then Wait(ds[..k + 1], m) else 0
    {
      WaitAppendLater(ds[..k], end, m);
    }
  }

  /** After the last departure the table is the wait table. */
  lemma FilledIsWaitTable(t: seq<nat>, ds: seq<MinuteOfDay>)
    requires StrictlyIncreasing(ds) && FilledUpTo(t, ds, |ds|)
    ensures t == WaitTable(ds)
  {
    var k := |ds|;
    assert ds[..k] == ds;
    forall m | 0 <= m < MinutesPerDay
      ensures t[m] == WaitTable(ds)[m]
    {
      if m >= StartAfter(ds, k) && k > 0 {
        WaitAppendLater(ds[..k - 1], ds[k - 1], m);
        assert ds[..k - 1] + [ds[k - 1]] == ds;
      }
    }
  }

  /** `from_direct_connection`: fills the wait table departure by departure. The
      times must be strictly increasing: a repeated or earlier time makes the
      `usize` subtraction `end - start` underflow. */
  method FromDirectConnection(con: DirectConnection) returns (r: Result<Connection, Panic>)
    ensures r.Err? <==> !StrictlyIncreasing(con.departureTimes)
    ensures r.Err? ==> r.error == SubtractWithOverflow
    ensures r.Ok? ==> r.value == ConnectionOf(con)
  {
    var ds := con.departureTimes;
    var table := new nat[MinutesPerDay](_ => 0);
    var start: nat := 0;
    var k := 0;
    while k < |ds|
      invariant 0 <= k <= |ds|
      invariant StrictlyIncreasing(ds[..k])
      invariant start == StartAfter(ds, k)
      invariant FilledUpTo(table[..], ds, k)
    {
      var end: nat := ds[k];
      if end < start {
        assert ds[k - 1] >= ds[k];
        return Err(SubtractWithOverflow);
      }
      FillDeparture(table, ds, k);
      start := end + 1;
      k := k + 1;
    }
    assert ds[..k] == ds;
    FilledIsWaitTable(table[..], ds);
    r := Ok(Connection(SaturatingU16(con.durationMinutes), Timetable(table[..])));
  }

  /** `get_minutes_to_departure`: 0 for walking, the table entry otherwise; a
      minute beyond the table is an out-of-bounds panic. */
  function GetMinutesToDeparture(c: Connection, minutesSinceMidnight: nat): (r: Result<nat, Panic>)
    ensures r.Err? <==> c.departureTimes.Timetable? && minutesSinceMidnight >= |c.departureTimes.table|
    ensures r.Err? ==> r.error == IndexOutOfBounds
    ensures c.departureTimes.Instantaneous? ==> r == Ok(0)
    ensures r.Ok? && c.departureTimes.Timetable? ==> r.value == c.departureTimes.table[minutesSinceMidnight]
  {
    match c.departureTimes
    case Instantaneous => Ok(0)
    case Timetable(table) =>
      if minutesSinceMidnight < |table| then Ok(table[minutesSinceMidnight]) else Err(IndexOutOfBounds)
  }

  /** For an edge built from a departure list, the lookup succeeds for every minute
      of the day and answers with the wait until the next departure. */
  lemma MinutesToDepartureOfTimetable(duration: nat, ds: seq<MinuteOfDay>, m: nat)
    requires StrictlyIncreasing(ds)
    requires m < MinutesPerDay
    ensures var r := GetMinutesToDeparture(Connection(duration, Timetable(WaitTable(ds))), m);
            r.Ok? && (m + r.value in ds || (r.value == 0 && forall d :: d in ds ==> d < m))
            && forall d :: d in ds && m <= d ==> m + r.value <= d
  {
    WaitTableMeaning(ds, m);
  }

  /** `from_dist`: a walking edge of `dist` metres at 80 metres per minute,
      truncated to whole minutes, with no waiting. */
  function FromDist(dist: real): (c: Connection)
    ensures c.departureTimes == Instantaneous
    ensures 0.0 <= dist < WalkingMetresPerMinute * (U16Max as real) ==>
              c.durationMinutes as real * WalkingMetresPerMinute <= dist
              < (c.durationMinutes as real + 1.0) * WalkingMetresPerMinute
    ensures dist <= 0.0 ==> c.durationMinutes == 0
  {
    Connection(SaturatingU16(dist / WalkingMetresPerMinute), Instantaneous)
  }
}
