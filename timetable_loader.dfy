/** The national-rail timetable loader: every journey's consecutive calling
    points become direct connections between the stop points their tiplocs
    name, merged into the `directConnection` collection. */
module TimetableLoader {
  import opened Wrappers
  import opened Panics
  import opened Times
  import opened Stations
  import opened DirectConnections
  import Text

  /** A calling point of a journey in the working timetable. Times are the
      timetable's text, "HH:MM" possibly followed by more characters. */
  datatype StopType =
    | Origin(tiploc: string, departure: string)
    | Intermediate(tiploc: string, arrival: string, departure: string)
    | Destination(tiploc: string, arrival: string)
    | PassThrough
    | OptionalOrigin
    | OptionalIntermediate
    | OptionalPassThrough
    | OptionalDestination
    | CancelReason

  /** A stop one can leave from, followed by a stop one can arrive at. */
  predicate Connectable(prev: StopType, current: StopType)
  {
    (prev.Origin? || prev.Intermediate?) && (current.Destination? || current.Intermediate?)
  }

  /** `stops.windows(2)` filtered by `Connectable`, in journey order. */
  function ConnectablePairs(stops: seq<StopType>): (pairs: seq<(StopType, StopType)>)
    ensures |stops| >= 1 ==> |pairs| <= |stops| - 1
    ensures forall k :: 0 <= k < |pairs| ==> Connectable(pairs[k].0, pairs[k].1)
    decreases |stops|
  {
    if |stops| < 2 then []
    else (if Connectable(stops[0], stops[1]) then [(stops[0], stops[1])] else []) + ConnectablePairs(stops[1..])
  }

  /** A pair is taken exactly when it is two neighbouring stops of the journey
      that pass the filter. */
  lemma {:induction false} ConnectablePairsMembers(stops: seq<StopType>, prev: StopType, current: StopType)
    ensures (prev, current) in ConnectablePairs(stops) <==>
            Connectable(prev, current) && exists i :: 0 <= i < |stops| - 1 && stops[i] == prev && stops[i + 1] == current
    decreases |stops|
  {
    if |stops| >= 2 {
      ConnectablePairsMembers(stops[1..], prev, current);
      if exists i :: 0 <= i < |stops| - 1 && stops[i] == prev && stops[i + 1] == current {
        var i :| 0 <= i < |stops| - 1 && stops[i] == prev && stops[i + 1] == current;
        if i > 0 {
          assert stops[1..][i - 1] == prev && stops[1..][i] == current;
        }
      }
      if exists i :: 0 <= i < |stops[1..]| - 1 && stops[1..][i] == prev && stops[1..][i + 1] == current {
        var i :| 0 <= i < |stops[1..]| - 1 && stops[1..][i] == prev && stops[1..][i + 1] == current;
        assert stops[i + 1] == prev && stops[i + 2] == current;
      }
    }
  }

  /** A journey that runs origin, one intermediate stop, destination gives its
      two legs; pass-through points break the chain. */
  lemma ConnectablePairsExample(a: string, b: string, c: string, t1: string, t2: string, t3: string, t4: string)
    ensures ConnectablePairs([Origin(a, t1), Intermediate(b, t2, t3), Destination(c, t4)])
            == [(Origin(a, t1), Intermediate(b, t2, t3)), (Intermediate(b, t2, t3), Destination(c, t4))]
    ensures ConnectablePairs([Origin(a, t1), PassThrough, Destination(c, t4)]) == []
  {
    var j := [Origin(a, t1), Intermediate(b, t2, t3), Destination(c, t4)];
    assert j[1..][1..] == [Destination(c, t4)];
    var k := [Origin(a, t1), PassThrough, Destination(c, t4)];
    assert k[1..][1..] == [Destination(c, t4)];
  }

  // ------------------------------------------------------------ times

  /** The value of two decimal digits. */
  function TwoDigits(hi: char, lo: char): nat
    requires Text.IsDigit(hi) && Text.IsDigit(lo)
  {
    (hi as int - '0' as int) * 10 + (lo as int - '0' as int)
  }

  /** `timestr_to_time`: the first five characters read as "HH:MM". A shorter
      string makes the slice panic (`SliceOutOfBounds`); a prefix that is not a
      time of day is the parse error (`ParseFailure`), which every caller
      unwraps into a panic. */
  function TimestrToTime(timestr: string): (r: Result<MinuteOfDay, Panic>)
    ensures |timestr| < 5 <==> r == Err(SliceOutOfBounds)
    ensures r.Err? ==> r.error in {SliceOutOfBounds, ParseFailure}
    ensures r.Ok? ==> |timestr| >= 5 && timestr[2] == ':'
    ensures r.Ok? ==> Text.IsDigit(timestr[0]) && Text.IsDigit(timestr[1]) && Text.IsDigit(timestr[3]) && Text.IsDigit(timestr[4])
    ensures r.Ok? ==> r.value / 60 == TwoDigits(timestr[0], timestr[1])
                      && r.value % 60 == TwoDigits(timestr[3], timestr[4])
  {
    if |timestr| < 5 then Err(SliceOutOfBounds)
    else
      var t := timestr[..5];
      if Text.IsDigit(t[0]) && Text.IsDigit(t[1]) && t[2] == ':' && Text.IsDigit(t[3]) && Text.IsDigit(t[4])
         && TwoDigits(t[0], t[1]) < 24 && TwoDigits(t[3], t[4]) < 60
      then Ok(TwoDigits(t[0], t[1]) * 60 + TwoDigits(t[3], t[4]))
      else Err(ParseFailure)
  }

  /** A minute of the day written as "HH:MM". */
  function FormatHM(m: MinuteOfDay): (s: string)
    ensures |s| == 5
  {
    [Text.DigitChar(m / 60 / 10), Text.DigitChar(m / 60 % 10), ':', Text.DigitChar(m % 60 / 10), Text.DigitChar(m % 60 % 10)]
  }

  /** Whatever follows the minutes (seconds, a half-minute mark) is ignored:
      a written time reads back as itself. */
  lemma TimestrToTimeOfFormat(m: MinuteOfDay, rest: string)
    ensures TimestrToTime(FormatHM(m) + rest) == Ok(m)
  {
    var s := FormatHM(m) + rest;
    assert s[..5] == FormatHM(m);
  }

  // ------------------------------------------------------------ stop lookup

  /** The stop points a `{"tiploc": t}` query finds, in collection order. */
  function WithTiploc(stops: seq<StopPoint>, tiploc: string): (r: seq<StopPoint>)
    ensures forall s :: s in r <==> s in stops && s.tiploc == Some(tiploc)
  {
    if stops == [] then []
    else
      assert forall s :: s in stops <==> s == stops[0] || s in stops[1..];
      (if stops[0].tiploc == Some(tiploc) then [stops[0]] else []) + WithTiploc(stops[1..], tiploc)
  }

  /** `max_by_key(|s| s.lines.len())`: the position of a stop with the most lines,
      the last one when several tie. */
  function MostLines(matches: seq<StopPoint>): (i: nat)
    requires |matches| > 0
    ensures i < |matches|
    ensures forall j :: 0 <= j < |matches| ==> |matches[j].lines| <= |matches[i].lines|
    ensures forall j :: i < j < |matches| ==> |matches[j].lines| < |matches[i].lines|
    decreases |matches|
  {
    if |matches| == 1 then 0
    else
      var best := MostLines(matches[..|matches| - 1]);
      assert matches[..|matches| - 1][best] == matches[best];
      assert forall j :: 0 <= j < |matches| - 1 ==> matches[..|matches| - 1][j] == matches[j];
      if |matches[best].lines| > |matches[|matches| - 1].lines| then best else |matches| - 1
  }

  /** `tiploc_to_naptan`: the id of the matching stop point with the most lines;
      no match at all is an error. */
  function TiplocToNaptan(stops: seq<StopPoint>, tiploc: string): (r: Result<string, string>)
    ensures r.Err? <==> forall s :: s in stops ==> s.tiploc != Some(tiploc)
    ensures r.Ok? ==> exists s :: s in stops && s.tiploc == Some(tiploc) && s.id == r.value
                        && forall s' :: s' in stops && s'.tiploc == Some(tiploc) ==> |s'.lines| <= |s.lines|
  {
    var matches := WithTiploc(stops, tiploc);
    if |matches| == 0 then
      Err(tiploc)
    else
      var i := MostLines(matches);
      assert matches[i] in matches;
      assert forall s' :: s' in matches ==> |s'.lines| <= |matches[i].lines|;
      Ok(matches[i].id)
  }

  /** The last of two equally served stops wins. */
  lemma MostLinesTie(a: StopPoint, b: StopPoint)
    requires |a.lines| == |b.lines|
    ensures MostLines([a, b]) == 1
  {
  }

  // ------------------------------------------------------------ one connection

  /** What `insert_connection` does with one pair, before touching the database. */
  datatype Step =
    | Insert(con: DirectConnection)
    | Failed(tiploc: string)
    | Panicked(panic: Panic)

  /** The pieces of `insert_connection`, in its order: the departure of `prev`
      (its time unwrapped), the arrival of `current` (likewise), the origin and
      then the destination stop looked up by tiploc. A variant without the
      needed time is an explicit panic. */
  function ConnectionFor(stops: seq<StopPoint>, prev: StopType, current: StopType): (step: Step)
    ensures step.Insert? ==> Connectable(prev, current)
  {
    if !(prev.Origin? || prev.Intermediate?) then Panicked(ExplicitPanic)
    else
      match TimestrToTime(prev.departure)
      case Err(p) => Panicked(if p == SliceOutOfBounds then p else ParseFailure)
      case Ok(departTime) =>
        if !(current.Destination? || current.Intermediate?) then Panicked(ExplicitPanic)
        else
          match TimestrToTime(current.arrival)
          case Err(p) => Panicked(if p == SliceOutOfBounds then p else ParseFailure)
          case Ok(arrivalTime) =>
            match TiplocToNaptan(stops, prev.tiploc)
            case Err(_) => Failed(prev.tiploc)
            case Ok(origin) =>
              match TiplocToNaptan(stops, current.tiploc)
              case Err(_) => Failed(current.tiploc)
              case Ok(destination) =>
                Insert(DirectConnection(None, origin, destination, (arrivalTime - departTime) as real, [departTime]))
  }

  /** A record is built only from a departure and an arrival that both read as
      times and two tiplocs that both name a stop: it leaves at the departure,
      takes the difference of the two times, and joins the stops chosen for
      the tiplocs. A failed lookup names the tiploc that failed, the origin's
      first; a variant without the needed time panics before anything else. */
  lemma ConnectionForMeaning(stops: seq<StopPoint>, prev: StopType, current: StopType)
    ensures var step := ConnectionFor(stops, prev, current);
            step.Insert? ==>
              var dep := TimestrToTime(prev.departure);
              var arr := TimestrToTime(current.arrival);
              dep.Ok? && arr.Ok?
              && step.con == DirectConnection(None, TiplocToNaptan(stops, prev.tiploc).value,
                                              TiplocToNaptan(stops, current.tiploc).value,
                                              (arr.value - dep.value) as real, [dep.value])
    ensures var step := ConnectionFor(stops, prev, current);
            step.Failed? ==>
              Connectable(prev, current)
              && (step.tiploc == prev.tiploc || step.tiploc == current.tiploc)
              && TiplocToNaptan(stops, step.tiploc).Err?
              && (TiplocToNaptan(stops, prev.tiploc).Err? ==> step.tiploc == prev.tiploc)
    ensures !(prev.Origin? || prev.Intermediate?) ==> ConnectionFor(stops, prev, current) == Panicked(ExplicitPanic)
    ensures ((prev.Origin? || prev.Intermediate?) && TimestrToTime(prev.departure).Ok?
             && !(current.Destination? || current.Intermediate?)) ==> ConnectionFor(stops, prev, current) == Panicked(ExplicitPanic)
  {
  }

  /** The collection after `mongo_insert` of one record. */
  function Stored(docs: map<string, DirectConnection>, con: DirectConnection): (r: map<string, DirectConnection>)
    ensures r.Keys == docs.Keys + {Id(con)}
    ensures forall k :: k in docs && k != Id(con) ==> r[k] == docs[k]
  {
    docs[Id(con) := Merged(if Id(con) in docs then Some(docs[Id(con)]) else None, con)]
  }

  /** The collection after `mongo_insert` of each record in turn. */
  function StoredAll(docs: map<string, DirectConnection>, cons: seq<DirectConnection>): (r: map<string, DirectConnection>)
    decreases |cons|
  {
    if cons == [] then docs else Stored(StoredAll(docs, cons[..|cons| - 1]), cons[|cons| - 1])
  }

  /** Storing keeps every record filed under its own id, and keeps a
      collection of well-formed records well formed. */
  lemma {:induction false} StoredAllKeepsFiled(docs: map<string, DirectConnection>, cons: seq<DirectConnection>)
    requires FiledUnderId(docs)
    ensures FiledUnderId(StoredAll(docs, cons))
    ensures WellFormedDocs(docs) ==> WellFormedDocs(StoredAll(docs, cons))
    decreases |cons|
  {
    if cons != [] {
      StoredAllKeepsFiled(docs, cons[..|cons| - 1]);
    }
  }

  /** Storing adds no key but the records' own. */
  lemma {:induction false} StoredAllKeys(docs: map<string, DirectConnection>, cons: seq<DirectConnection>)
    ensures StoredAll(docs, cons).Keys == docs.Keys + set c | c in cons :: Id(c)
    decreases |cons|
  {
    if cons != [] {
      var front := cons[..|cons| - 1];
      StoredAllKeys(docs, front);
      assert forall c :: c in cons <==> c in front || c == cons[|cons| - 1];
    }
  }

  /** Every stored record leaves its departure times under its key. */
  lemma {:induction false} StoredAllKeepsTimes(docs: map<string, DirectConnection>, cons: seq<DirectConnection>, c: DirectConnection, t: MinuteOfDay)
    requires c in cons && t in c.departureTimes
    ensures Id(c) in StoredAll(docs, cons) && t in StoredAll(docs, cons)[Id(c)].departureTimes
    decreases |cons|
  {
    var front := cons[..|cons| - 1];
    var last := cons[|cons| - 1];
    if c != last {
      assert c in front;
      StoredAllKeepsTimes(docs, front, c, t);
      StoredKeepsTimes(StoredAll(docs, front), last, Id(c), t);
    }
  }

  /** One more record keeps every time already stored. */
  lemma StoredKeepsTimes(docs: map<string, DirectConnection>, con: DirectConnection, k: string, t: MinuteOfDay)
    requires k in docs && t in docs[k].departureTimes
    ensures k in Stored(docs, con) && t in Stored(docs, con)[k].departureTimes
  {
  }

  /** `insert_connection` on a pair: the record is merged in, or the collection
      is left as it was when a lookup fails or the code panics. */
  method InsertConnection(repo: Repository, stops: seq<StopPoint>, prev: StopType, current: StopType)
    returns (step: Step)
    requires FiledUnderId(repo.docs)
    modifies repo
    ensures FiledUnderId(repo.docs) && (WellFormedDocs(old(repo.docs)) ==> WellFormedDocs(repo.docs))
    ensures step == ConnectionFor(stops, prev, current)
    ensures repo.docs == if step.Insert? then Stored(old(repo.docs), step.con) else old(repo.docs)
  {
    step := ConnectionFor(stops, prev, current);
    if step.Insert? {
      var _ := repo.MongoInsert(step.con);
    }
  }

  // ------------------------------------------------------------ journeys

  /** What each pair of a journey yields, pair by pair. */
  function StepsOf(stops: seq<StopPoint>, pairs: seq<(StopType, StopType)>): (steps: seq<Step>)
    ensures |steps| == |pairs|
    ensures forall i :: 0 <= i < |pairs| ==> steps[i] == ConnectionFor(stops, pairs[i].0, pairs[i].1)
  {
    seq(|pairs|, i requires 0 <= i < |pairs| => ConnectionFor(stops, pairs[i].0, pairs[i].1))
  }

  /** What a run over a journey's pairs has stored, and whether it goes on. */
  datatype Run = Run(inserted: seq<DirectConnection>, state: RunState)

  datatype RunState = Running | Stopped | Crashed(panic: Panic)

  /** The steps of one journey taken in order: each record is stored until the
      first failed lookup ends the journey or a panic ends the program. */
  function RunOf(steps: seq<Step>): (run: Run)
    ensures |run.inserted| <= |steps|
    decreases |steps|
  {
    if steps == [] then Run([], Running)
    else
      var before := RunOf(steps[..|steps| - 1]);
      if !before.state.Running? then before
      else
        match steps[|steps| - 1]
        case Insert(con) => Run(before.inserted + [con], Running)
        case Failed(_) => Run(before.inserted, Stopped)
        case Panicked(p) => Run(before.inserted, Crashed(p))
  }

  /** The run over a journey's connectable pairs. */
  function JourneyRun(stops: seq<StopPoint>, journey: seq<StopType>): (run: Run)
    ensures |run.inserted| <= |ConnectablePairs(journey)|
  {
    RunOf(StepsOf(stops, ConnectablePairs(journey)))
  }

  /** Once stopped, later steps are not looked at. */
  lemma {:induction false} RunStaysStopped(steps: seq<Step>, i: nat)
    requires i <= |steps|
    requires !RunOf(steps[..i]).state.Running?
    ensures RunOf(steps) == RunOf(steps[..i])
    decreases |steps| - i
  {
    if i < |steps| {
      assert steps[..i + 1][..i] == steps[..i];
      RunStaysStopped(steps, i + 1);
    } else {
      assert steps[..i] == steps;
    }
  }

  /** The records stored are those of the first steps, up to the first step that
      does not yield one; that step decides how the run ends. */
  lemma {:induction false} RunIsPrefix(steps: seq<Step>)
    ensures var run := RunOf(steps);
            var k := |run.inserted|;
            (forall i :: 0 <= i < k ==> steps[i] == Insert(run.inserted[i]))
            && (run.state.Running? <==> k == |steps|)
            && (k < |steps| ==> !steps[k].Insert?
                                && (steps[k].Failed? <==> run.state.Stopped?)
                                && (steps[k].Panicked? ==> run.state == Crashed(steps[k].panic)))
    decreases |steps|
  {
    if steps != [] {
      var front := steps[..|steps| - 1];
      RunIsPrefix(front);
      assert forall i :: 0 <= i < |front| ==> front[i] == steps[i];
    }
  }

  /** One more step of a run that was still going. */
  lemma RunNext(steps: seq<Step>, i: nat)
    requires i < |steps| && RunOf(steps[..i]).state.Running?
    ensures var before := RunOf(steps[..i]).inserted;
            RunOf(steps[..i + 1]) == match steps[i]
                                     case Insert(con) => Run(before + [con], Running)
                                     case Failed(_) => Run(before, Stopped)
                                     case Panicked(p) => Run(before, Crashed(p))
    ensures !steps[i].Insert? ==> RunOf(steps) == RunOf(steps[..i + 1])
  {
    assert steps[..i + 1][..i] == steps[..i];
    if !steps[i].Insert? {
      RunStaysStopped(steps, i + 1);
    }
  }

  /** Storing one more record after a batch. */
  lemma StoredAllSnoc(docs: map<string, DirectConnection>, cons: seq<DirectConnection>, con: DirectConnection)
    ensures StoredAll(docs, cons + [con]) == Stored(StoredAll(docs, cons), con)
  {
    assert (cons + [con])[..|cons|] == cons;
  }

  /** `load_timetable` on one journey: its pairs are inserted in order; the error
      that ends the run early is dropped, and only a panic is reported. */
  method LoadJourney(repo: Repository, stops: seq<StopPoint>, journey: seq<StopType>)
    returns (r: Result<(), Panic>)
    requires FiledUnderId(repo.docs)
    modifies repo
    ensures FiledUnderId(repo.docs) && (WellFormedDocs(old(repo.docs)) ==> WellFormedDocs(repo.docs))
    ensures var run := JourneyRun(stops, journey);
            repo.docs == StoredAll(old(repo.docs), run.inserted)
            && (r.Err? <==> run.state.Crashed?) && (r.Err? ==> r.error == run.state.panic)
  {
    var pairs := ConnectablePairs(journey);
    ghost var steps := StepsOf(stops, pairs);
    var i := 0;
    while i < |pairs|
      invariant 0 <= i <= |pairs|
      invariant RunOf(steps[..i]).state.Running?
      invariant repo.docs == StoredAll(old(repo.docs), RunOf(steps[..i]).inserted)
    {
      StoredAllKeepsFiled(old(repo.docs), RunOf(steps[..i]).inserted);
      var step := InsertConnection(repo, stops, pairs[i].0, pairs[i].1);
      RunNext(steps, i);
      if step.Panicked? {
        return Err(step.panic);
      } else if step.Failed? {
        return Ok(());
      }
      StoredAllSnoc(old(repo.docs), RunOf(steps[..i]).inserted, step.con);
      i := i + 1;
    }
    assert steps[..i] == steps;
    StoredAllKeepsFiled(old(repo.docs), RunOf(steps).inserted);
    r := Ok(());
  }

  /** All journeys' runs in order; a journey ended by a failed lookup does not
      stop the next one, a panic ends everything. */
  function Combined(runs: seq<Run>): (r: (seq<DirectConnection>, Option<Panic>))
    decreases |runs|
  {
    if runs == [] then ([], None)
    else
      var before := Combined(runs[..|runs| - 1]);
      var run := runs[|runs| - 1];
      if before.1.Some? then before
      else (before.0 + run.inserted, if run.state.Crashed? then Some(run.state.panic) else None)
  }

  /** The run of each journey. */
  function JourneyRuns(stops: seq<StopPoint>, journeys: seq<seq<StopType>>): (runs: seq<Run>)
    ensures |runs| == |journeys|
    ensures forall j :: 0 <= j < |journeys| ==> runs[j] == JourneyRun(stops, journeys[j])
  {
    seq(|journeys|, j requires 0 <= j < |journeys| => JourneyRun(stops, journeys[j]))
  }

  /** The whole load panics exactly when some journey's run panics. */
  lemma {:induction false} CombinedPanics(runs: seq<Run>)
    ensures Combined(runs).1.None? <==> forall j :: 0 <= j < |runs| ==> !runs[j].state.Crashed?
    decreases |runs|
  {
    if runs != [] {
      var front := runs[..|runs| - 1];
      CombinedPanics(front);
      assert forall j :: 0 <= j < |front| ==> front[j] == runs[j];
    }
  }

  /** Without a panic, every journey contributes all that its run stored, one
      journey after another, whether or not its run stopped early. */
  lemma {:induction false} CombinedConcat(runs: seq<Run>)
    requires Combined(runs).1.None?
    ensures Combined(runs).0 == Concat(runs)
    decreases |runs|
  {
    if runs != [] {
      CombinedConcat(runs[..|runs| - 1]);
    }
  }

  /** Everything the runs stored, run after run. */
  function Concat(runs: seq<Run>): seq<DirectConnection>
    decreases |runs|
  {
    if runs == [] then [] else Concat(runs[..|runs| - 1]) + runs[|runs| - 1].inserted
  }

  /** After a panic no later journey is loaded. */
  lemma {:induction false} CombinedStaysPanicked(runs: seq<Run>, i: nat)
    requires i <= |runs|
    requires Combined(runs[..i]).1.Some?
    ensures Combined(runs) == Combined(runs[..i])
    decreases |runs| - i
  {
    if i < |runs| {
      assert runs[..i + 1][..i] == runs[..i];
      CombinedStaysPanicked(runs, i + 1);
    } else {
      assert runs[..i] == runs;
    }
  }

  /** Stores in two batches are the store of both, one after the other. */
  lemma {:induction false} StoredAllAppend(docs: map<string, DirectConnection>, a: seq<DirectConnection>, b: seq<DirectConnection>)
    ensures StoredAll(docs, a + b) == StoredAll(StoredAll(docs, a), b)
    decreases |b|
  {
    if b == [] {
      assert a + b == a;
    } else {
      assert (a + b)[..|a + b| - 1] == a + b[..|b| - 1];
      StoredAllAppend(docs, a, b[..|b| - 1]);
    }
  }

  /** One more journey after loads that did not panic. */
  lemma CombinedNext(runs: seq<Run>, k: nat)
    requires k < |runs| && Combined(runs[..k]).1.None?
    ensures Combined(runs[..k + 1]).0 == Combined(runs[..k]).0 + runs[k].inserted
    ensures Combined(runs[..k + 1]).1.None? <==> !runs[k].state.Crashed?
    ensures runs[k].state.Crashed? ==> Combined(runs) == Combined(runs[..k + 1])
                                       && Combined(runs).1 == Some(runs[k].state.panic)
  {
    assert runs[..k + 1][..k] == runs[..k];
    if runs[k].state.Crashed? {
      CombinedStaysPanicked(runs, k + 1);
    }
  }

  /** `load_timetable` after the file is read: the journeys one by one. */
  method LoadTimetable(repo: Repository, stops: seq<StopPoint>, journeys: seq<seq<StopType>>)
    returns (r: Result<(), Panic>)
    requires FiledUnderId(repo.docs)
    modifies repo
    ensures FiledUnderId(repo.docs) && (WellFormedDocs(old(repo.docs)) ==> WellFormedDocs(repo.docs))
    ensures var run := Combined(JourneyRuns(stops, journeys));
            repo.docs == StoredAll(old(repo.docs), run.0) && (r.Err? <==> run.1.Some?)
            && (r.Err? ==> r.error == run.1.value)
  {
    ghost var runs := JourneyRuns(stops, journeys);
    var k := 0;
    while k < |journeys|
      invariant 0 <= k <= |journeys|
      invariant Combined(runs[..k]).1.None?
      invariant repo.docs == StoredAll(old(repo.docs), Combined(runs[..k]).0)
    {
      ghost var done := Combined(runs[..k]).0;
      StoredAllKeepsFiled(old(repo.docs), done);
      r := LoadJourney(repo, stops, journeys[k]);
      CombinedNext(runs, k);
      StoredAllAppend(old(repo.docs), done, runs[k].inserted);
      if r.Err? {
        return;
      }
      k := k + 1;
    }
    assert runs[..k] == runs;
    StoredAllKeepsFiled(old(repo.docs), Combined(runs).0);
    r := Ok(());
  }
}
