# Travel-time engine: a Dafny model

This project models the core of a London travel-time map. The back end builds
an in-memory transit graph of stations from stored timetable records and walking
distances. It runs a time-dependent Dijkstra search answering "how many minutes
from this station, leaving at this time, to every other station, and by which
path". The front end turns those answers into coloured rings on a map.

The model follows the source file by file:

- `connection.dfy`: the edge weight (`src/graph/connection.rs`). A timetabled
  edge fills a 1440-entry wait table in place, counting down to each departure.
  A walking edge never waits and lasts its distance in metres divided by 80, truncated. Casts
  from `f64` to `u16` are written out as saturating truncation.
- `times.dfy`: minutes of the day, and the `sort` + `dedup` normal form of
  departure lists.
- `graph.dfy` and `search.dfy`: the three revisions of `TflGraph`
  (`src/graph/tfl_graph.rs`, `src/graph/graph.rs`, `backend/graph/tfl_graph.rs`).
  - The graph is a class whose methods update its nodes, edges and id index.
  - The search is a loop over a heap, a visited set, best scores and parents.
    It is proved against a reference definition: the arrival time of a journey
    along the edges.
  - Rust panics (`unwrap` on `None`, an index past a table, `u16` and `usize`
    overflow in a debug build) are results, not preconditions.
  - A `get_path` that never returns is the outcome `Diverges`.
- Back-end record helpers:
  - `direct_connections.dfy`: connection records, their `mongo_insert` merge,
    and the repository they are stored in.
  - `data_fixer.dfy`: the repair passes.
  - `timetable_loader.dfy`: the National Rail loader.
  - `graph_loader.dfy`: the node-pair export.
  - `geo_location.dfy`: `try_parse_loc`.
  - `string_util.dfy`: the quote strip.
  - `query_parameters.dfy`: the two query-parameter builders.
  - `line_response.dfy` and `node_pair.dfy`: the id derivations of the stored
    record types.
  - The `src/api/model/direct_connection.rs` copy of the connection record has
    the same `id`/`set_id` as the TfL one. It is modelled by
    `DirectConnections.Id`/`SetId` and its collection name
    (`DirectConnections.ApiCollectionName`).
- Front end:
  - `app.dfy`: the state logic of `App.jsx`, plus the list edits and
    `computeBounds` that `App.tsx` shares.
  - `app_ts.dfy`: the URL parameters of `App.tsx`.
  - `bounds_card.dfy`: the slider handler, on an array, as both `BoundsCard`
    files write it.
  - `circles.dfy`: both `Circles` files. The copy of `makeCircle` and
    `makeCircles` inside `App.jsx` is `App.MakeLongestCircles`, which applies
    `Circles.MakeCircles` to the values of the longest-journey dictionary.
  - `location_ts.dfy`: `Location.ts`.
  - `journey_api.dfy`: `journeyApi.ts`.
  - `location_card.dfy`: `LocationCard.tsx`.
  - `config.dfy`: the configuration constants.
- Shared helpers:
  - `text.dfy`: splitting, joining, and decimal numerals in and out.
  - `stations.dfy`: stations, stop points and edges.
  - `panics.dfy`: the kinds of panic.
  - `wrappers.dfy`: `Option`/`Result`.

Where the intended behaviour and the code differ, the model follows the code:

- Searching from an unknown station panics on `unwrap`. It is not a recoverable
  "not found" error.
- The search can panic. A score of 1440 or more indexes past a wait table, and a
  score above 65535 overflows `u16`.
- The start station gets no entry of its own unless an edge leads from it back
  to itself. Then it is its own parent and `get_path` never returns.
- In a wait table, every minute after the last departure holds 0, not a stale
  value.
- `add_stations` and `build_from_repos` panic on a stop missing from the
  repository.

## Model

| member | source | states |
|---|---|---|
| Times.NeighboursStrictlyIncreasing | src/db/data_fixer.rs:19-20 | a list whose neighbours strictly increase is strictly increasing throughout (the shape `sort` + `dedup` leaves) |
| Times.Insert | src/db/data_fixer.rs:19 | inserting into a sorted list gives a sorted list with the element added (multiset) |
| Times.Sort | src/db/data_fixer.rs:19 | `sort` returns an ordered permutation of the departure list |
| Times.Dedup | src/db/data_fixer.rs:20 | `dedup` keeps the first element and exactly the same set of values; after a sort the result strictly increases |
| Times.SortDedup | src/tfl/model/direct_connection.rs:47-48 | `sort` then `dedup`: strictly increasing, with exactly the times of the input |
| Times.SortDedupOfIncreasing | src/db/data_fixer.rs:19-20 | normalising a list already sorted and duplicate-free changes nothing |
| Times.IncreasingDetermined | src/db/data_fixer.rs:19-20 | two strictly increasing lists with the same times are equal, so the normal form is unique |
| DirectConnections.Id | src/tfl/model/direct_connection.rs:26-28 | the key is the origin, a '-', then the destination |
| DirectConnections.IdDeterminesEndpoints | src/tfl/model/direct_connection.rs:26-28 | when origins hold no '-', equal keys mean equal origin and destination |
| DirectConnections.IdCollidesOnDash | src/tfl/model/direct_connection.rs:26-28 | with a '-' inside an origin, two different hops ("a-b"→"c" and "a"→"b-c") share a key |
| DirectConnections.SetId | src/tfl/model/direct_connection.rs:30-32 | `set_id` stores the key and changes no other field |
| DirectConnections.Merged | src/tfl/model/direct_connection.rs:37-51 | the stored record: for a new key the hop with its id set and every other field the hop's, departures aside; for a known key the old record with every field kept but the departures, which become the union of both lists; either way strictly increasing |
| DirectConnections.MergeKnownTimes | src/tfl/model/direct_connection.rs:39-43 | merging times that are already stored leaves the stored record unchanged |
| DirectConnections.Repository.constructor | src/db/mongo_repo.rs:26-31 | a new repository starts empty and well formed |
| DirectConnections.Repository.GetById | src/db/mongo_repo.rs:33-37 | finds the record filed under the key, and finds nothing exactly when there is none |
| DirectConnections.Repository.MongoInsert | src/tfl/model/direct_connection.rs:36-54 | the collection changes only under the hop's key, to the merged record. A record already under the key must be the hop's own; stored times need not be sorted, since the merge sorts them. A collection filed by id stays so, and one whose records all have sorted, distinct times stays so. The caller's record loses its times (known key) or gets its id and normalised times (new key) |
| Connection.SaturatingU16 | src/graph/connection.rs:48 | `f64 as u16`: truncation toward zero, 0 for negative input, 65535 at and above the top |
| Connection.NextDeparture | src/graph/connection.rs:8-10 | the first listed departure at or after a minute; none exactly when every departure is earlier |
| Connection.NextDepartureIsEarliest | src/graph/connection.rs:8-10 | in a sorted list that departure is the earliest one not before the minute |
| Connection.NextDepartureAppend | src/graph/connection.rs:26-45 | searching a concatenation finds the answer in the front part when it has one, otherwise in the back |
| Connection.WaitAppendLater | src/graph/connection.rs:29-44 | adding a later departure leaves the waits before the previous last departure alone and counts down to the new one after it |
| Connection.WaitTableMeaning | src/graph/connection.rs:8-10 | a table entry is the wait until the next departure, which is then a departure, or 0 when none is left |
| Connection.WaitTableExample | src/graph/connection.rs:26-45 | for departures at 08:00, 08:10 and 08:25 the table holds 480 at midnight, 7 at 08:03, 0 at 08:10, 13 at 08:12, 0 at 08:25 and 0 at 10:00, after the last |
| Connection.ConnectionOf | src/graph/connection.rs:47-50 | the edge weight: duration saturated to u16 and a table of 1440 entries |
| Connection.CountDown | src/graph/connection.rs:29-37 | writes `end - m` at every minute `m` from `start` up to `end`, leaving every other entry unchanged |
| Connection.FillDeparture | src/graph/connection.rs:26-45 | one pass of the outer loop extends the filled prefix of the table by one departure |
| Connection.FilledIsWaitTable | src/graph/connection.rs:26-45 | after every departure has been handled the array is the wait table |
| Connection.FromDirectConnection | src/graph/connection.rs:21-51 | panics (usize underflow) exactly when the departure list is not strictly increasing; otherwise returns the wait table with the saturated duration |
| Connection.GetMinutesToDeparture | src/graph/connection.rs:53-58 | 0 for a walking edge, the table entry otherwise; an index past the table panics |
| Connection.MinutesToDepartureOfTimetable | src/graph/connection.rs:53-58 | for a table built from a departure list the lookup succeeds for every minute of the day and returns the wait |
| Connection.FromDist | src/graph/connection.rs:60-66 | a walking edge of `dist / 80` whole minutes, saturated to u16, with no departure table |
| DataFixer.IdToTiploc | src/db/data_fixer.rs:41-44 | the result is no longer than the id, holds only letters, and only characters of the id |
| DataFixer.IdToTiplocAppend | src/db/data_fixer.rs:43 | the filter works piece by piece, so letters keep their order |
| DataFixer.IdToTiplocCounts | src/db/data_fixer.rs:43 | every letter is kept as often as it occurs, and nothing else is kept |
| DataFixer.IdToTiplocIdempotent | src/db/data_fixer.rs:41-44 | deriving a tiploc from a tiploc changes nothing |
| DataFixer.LettersOnlyFixed | src/db/data_fixer.rs:41-44 | a string of letters is its own tiploc |
| DataFixer.Normalised | src/db/data_fixer.rs:18-20 | the record with strictly increasing times, the same set of times and every other field unchanged |
| DataFixer.NormalisedIdempotent | src/db/data_fixer.rs:18-20 | running the repair twice is running it once |
| DataFixer.FixDirectConnectionRepo | src/db/data_fixer.rs:14-25 | after the cursor loop every record is normalised and the keys are unchanged |
| DataFixer.FixConnection | src/db/data_fixer.rs:17-22 | one cursor step writes back the normalised record under its own key |
| DataFixer.FixedConnectionsStep | src/db/data_fixer.rs:18-21 | replacing one record under its id repairs exactly one more key |
| DataFixer.FixedConnectionsValid | src/db/data_fixer.rs:14-25 | once every record is repaired, each is a well-formed stored record with the times it had before |
| DataFixer.StopPointRepository.constructor | src/db/mongo_repo.rs:26-31 | the stop-point collection holds the given stops |
| DataFixer.FixStopPointRepo | src/db/data_fixer.rs:27-39 | after the cursor loop every stop has the tiploc its id gives, and the keys are unchanged |
| DataFixer.FixStopPoint | src/db/data_fixer.rs:33-36 | one cursor step gives one more stop its tiploc |
| DataFixer.WithTiplocsMeaning | src/db/data_fixer.rs:33-35 | after the repair a stop's tiploc is the letters of its id, and every other field is as before |
| LineResponse.Id | src/api/model/line_response.rs:43-47 | the key is the originator's id followed directly by the destination's |
| LineResponse.SetId | src/api/model/line_response.rs:49-51 | `set_id` stores the key and changes no other field |
| LineResponse.IdOnlyEndpoints | src/api/model/line_response.rs:43-47 | equal endpoints give equal keys whatever the other fields; equal keys with originators of one length mean equal endpoints |
| LineResponse.IdCollides | src/api/model/line_response.rs:43-47 | with no separator, the pairs ("ab", "c") and ("a", "bc") share a key |
| NodePairs.Id | src/graph/node_pair.rs:23-25 | the key is the two station ids one after the other |
| NodePairs.IdOnlyStationIds | src/graph/node_pair.rs:23-25 | the key ignores the edge and all but the station ids; for ids of one length it determines them |
| NodePairs.IdCollides | src/graph/node_pair.rs:23-25 | pairs between different stations can share a key |
| StringUtil.Unquoted | backend/util/string_util.rs:11-14 | drops exactly the first and the last character, and leaves nothing of a string shorter than two |
| StringUtil.UnquotedQuoted | backend/util/string_util.rs:5-8 | stripping undoes JSON's quoting of a name without escapes |
| StringUtil.EnumToString | backend/util/string_util.rs:9-15 | a serialiser error is passed on unchanged; otherwise the result is the serialised text without its first and last characters |
| QueryParameters.PushedOpt | src/api/query_parameters.rs:22-31 | a present value appends its pair at the end; an absent one leaves the list as it was |
| QueryParameters.PushedAllAppends | src/api/query_parameters.rs:22-31 | chained calls only add: the earlier pairs stay in front, and one pair is added per present value, keys in call order |
| QueryParameters.QueryParameters.constructor | src/api/query_parameters.rs:9-11 | a new builder holds no parameters |
| QueryParameters.QueryParameters.Push | src/api/query_parameters.rs:13-20 | appends the pair and returns the same builder |
| QueryParameters.QueryParameters.PushOpt | src/api/query_parameters.rs:22-31 | the list becomes `PushedOpt` of the old list; returns the same builder |
| QueryParameters.PairsJson | backend/src/tfl/query_parameters.rs:37-44 | in serde's data model, one two-string sequence per pair, in order |
| QueryParameters.PairsJsonRoundTrip | backend/src/tfl/query_parameters.rs:37-44 | reading the serialised form back gives the pairs in insertion order |
| QueryParameters.ExtraQueryParams.constructor | backend/src/tfl/query_parameters.rs:11-13 | a new builder holds no parameters |
| QueryParameters.ExtraQueryParams.PushOpt | backend/src/tfl/query_parameters.rs:25-34 | the list becomes `PushedOpt` of the old list; returns the same builder |
| QueryParameters.ExtraQueryParams.Serialize | backend/src/tfl/query_parameters.rs:37-44 | the serialised form reads back as exactly the builder's pairs |
| GeoLocation.TryParseLoc | backend/graph/location.rs:41-53 | not exactly two comma-separated fields gives nothing; with two, a point exactly when both parse as decimal literals, with the first as x and the second as y |
| GeoLocation.SplitPair | backend/graph/location.rs:42 | two fields free of the separator, joined by it, split back into exactly those two |
| GeoLocation.TryParseLocOfIntegers | backend/graph/location.rs:41-53 | "x,y" written from two whole numbers parses back as that point |
| GeoLocation.TryParseLocNeedsOneComma | backend/graph/location.rs:42-43 | a string with no comma, or with two, is not a location |
| GeoLocation.DecimalLiteral | backend/graph/location.rs:44-45 | a literal "digits.digits" reads as its whole and fractional parts |
| GeoLocation.TryParseLocExample | backend/graph/location.rs:60-63 | "51.501105,-0.232320" parses to the point (51.501105, -0.232320) |
| GeoLocation.ExampleLatitude | backend/graph/location.rs:62 | "51.501105" reads as 51.501105 |
| GeoLocation.ExampleLongitude | backend/graph/location.rs:62 | "-0.232320" reads as -0.23232 |
| TimetableLoader.ConnectablePairs | src/national_rail/timetable_loader.rs:37-51 | every pair kept is a stop one can leave from followed by a stop one can arrive at; at most one pair per neighbouring position |
| TimetableLoader.ConnectablePairsMembers | src/national_rail/timetable_loader.rs:37-51 | a pair is kept exactly when it is two neighbouring stops of the journey that pass the filter |
| TimetableLoader.ConnectablePairsExample | src/national_rail/timetable_loader.rs:37-51 | origin, intermediate, destination gives its two legs; a pass-through point in the middle gives none |
| TimetableLoader.TimestrToTime | src/national_rail/timetable_loader.rs:93-96 | fewer than five characters panic at the slice; otherwise the first five must read "HH:MM" as a time of day, giving hours × 60 + minutes, or it is a parse error |
| TimetableLoader.TimestrToTimeOfFormat | src/national_rail/timetable_loader.rs:93-96 | a written "HH:MM" followed by anything reads back as that minute |
| TimetableLoader.WithTiploc | src/national_rail/timetable_loader.rs:100-107 | the query finds exactly the stops whose tiploc is the one asked for |
| TimetableLoader.MostLines | src/national_rail/timetable_loader.rs:109 | `max_by_key` picks a stop with the most lines, the last one among ties |
| TimetableLoader.TiplocToNaptan | src/national_rail/timetable_loader.rs:98-113 | an error exactly when no stop has the tiploc; otherwise the id of a matching stop with the most lines |
| TimetableLoader.MostLinesTie | src/national_rail/timetable_loader.rs:109 | of two equally served stops the second wins |
| TimetableLoader.ConnectionFor | src/national_rail/timetable_loader.rs:61-88 | a record is built only for a connectable pair |
| TimetableLoader.ConnectionForMeaning | src/national_rail/timetable_loader.rs:61-88 | a record leaves at `prev`'s departure with `[depart_time]` as its times, lasts arrival minus departure and joins the stops chosen for the tiplocs; a failed lookup names the failing tiploc, the origin's first; a wrong variant panics |
| TimetableLoader.Stored | src/tfl/model/direct_connection.rs:36-54 | storing one record adds only its key and changes no other key |
| TimetableLoader.StoredAllKeys | src/national_rail/timetable_loader.rs:89 | after a batch the keys are the old ones plus the records' own |
| TimetableLoader.StoredAllKeepsFiled | src/tfl/model/direct_connection.rs:36-54 | merging a batch keeps a collection filed by id, and keeps all-sorted-and-distinct times so |
| TimetableLoader.StoredAllKeepsTimes | src/national_rail/timetable_loader.rs:89 | every inserted departure time ends up under its record's key |
| TimetableLoader.StoredKeepsTimes | src/tfl/model/direct_connection.rs:38-43 | storing one more record keeps every time already stored |
| TimetableLoader.InsertConnection | src/national_rail/timetable_loader.rs:61-91 | the built record is merged into the collection; when a lookup fails or the code panics the collection is unchanged. It needs only a collection filed by id, and keeps it so |
| TimetableLoader.StepsOf | src/national_rail/timetable_loader.rs:52 | what each pair of a journey yields, pair by pair |
| TimetableLoader.RunOf | src/national_rail/timetable_loader.rs:52-54 | a run stores at most one record per pair |
| TimetableLoader.JourneyRun | src/national_rail/timetable_loader.rs:37-54 | a journey stores at most one record per connectable pair |
| TimetableLoader.RunStaysStopped | src/national_rail/timetable_loader.rs:53 | once a run has stopped, later pairs are not looked at |
| TimetableLoader.RunIsPrefix | src/national_rail/timetable_loader.rs:52-54 | the records stored are those of the first pairs up to the first pair that yields none; that pair decides whether the run stopped or panicked |
| TimetableLoader.RunNext | src/national_rail/timetable_loader.rs:52-54 | one more pair of a running journey: stored and going on, stopped, or panicked |
| TimetableLoader.StoredAllSnoc | src/national_rail/timetable_loader.rs:89 | storing one more record after a batch is storing the longer batch |
| TimetableLoader.LoadJourney | src/national_rail/timetable_loader.rs:36-55 | the journey's records are merged in pair order up to the first failed lookup, whose error is dropped; a panic is reported. It needs only a collection filed by id, which may hold unsorted times |
| TimetableLoader.JourneyRuns | src/national_rail/timetable_loader.rs:35-36 | the run of each journey, in order |
| TimetableLoader.CombinedPanics | src/national_rail/timetable_loader.rs:35-58 | the whole load panics exactly when some journey's run panics |
| TimetableLoader.CombinedConcat | src/national_rail/timetable_loader.rs:35-58 | without a panic, every journey contributes what its run stored, journey after journey, whether or not it stopped early |
| TimetableLoader.CombinedStaysPanicked | src/national_rail/timetable_loader.rs:35-58 | after a panic no later journey is loaded |
| TimetableLoader.StoredAllAppend | src/national_rail/timetable_loader.rs:89 | storing two batches in turn is storing both |
| TimetableLoader.CombinedNext | src/national_rail/timetable_loader.rs:35-58 | one more journey after loads without a panic adds its run's records, and a panic in it ends the load |
| TimetableLoader.LoadTimetable | src/national_rail/timetable_loader.rs:31-59 | the collection is every journey's stored records merged in order; the result is an error exactly when a journey panicked, and it is that panic. It needs only a collection filed by id, which may hold unsorted times |
| Graph.EdgeFailure | src/graph/tfl_graph.rs:74-91 | a record's edge panics exactly when a stop is missing from the stop map (`unwrap` on `None`) or its departures do not strictly increase |
| Graph.StopIds | src/graph/tfl_graph.rs:58-62 | an id is gathered exactly when some record has it as origin or destination |
| Graph.CollectStopIds | src/graph/tfl_graph.rs:58-62 | the `for_each` over the records inserts exactly the ids `StopIds` describes |
| Graph.NeighbourEdges | src/graph/tfl_graph.rs:109-118 | the walking edges of a node are exactly one per reported neighbour other than the node itself, each leaving the node with the walking time of its distance |
| Graph.WalkingEdges | src/graph/tfl_graph.rs:106-120 | the walking edges of all nodes are exactly the non-self neighbours of each node, and each leaves a node of the graph |
| Graph.TflGraph.constructor | src/graph/graph.rs:25-34 | the default graph has no nodes, no edges and an empty id index, and is well indexed |
| Graph.TflGraph.GetOrInsertNodeIdx | src/graph/tfl_graph.rs:166-182 | a known id answers its node and changes nothing; an unknown id gets exactly one new node (its station) filed under it; edges are untouched and the graph stays well indexed |
| Graph.TflGraph.AddStationEdge | src/graph/tfl_graph.rs:74-91 | one record: either the panic the edge fold predicts or exactly the fold's next graph, still well indexed |
| Graph.TflGraph.AddStationEdges | src/graph/graph.rs:43-60 | the edge loop over all records (the stop looked up per record, a missing one panics) ends in exactly the graph or the first panic the fold predicts |
| Graph.TflGraph.AddStations | src/graph/tfl_graph.rs:49-94 | a stop id missing from the repository panics before any edge is added; otherwise the only panic is a badly ordered departure list, and the graph is the fold's over all records |
| Graph.TflGraph.AddStationsFetched | backend/graph/tfl_graph.rs:42-100 | fetching only the mentioned stops in one query and keying them by id gives the same graph or panic as looking each stop up |
| Graph.TflGraph.AddWalkingEdges | src/graph/tfl_graph.rs:96-125 | nodes and index are unchanged; the edges become the old ones followed by every walking edge, node by node; the graph stays well indexed |
| Graph.TflGraph.WalkingConnections | src/graph/tfl_graph.rs:106-120 | the `flat_map` over the nodes collects exactly the walking edges, in node order |
| Graph.TflGraph.CloseConnections | src/graph/tfl_graph.rs:110-118 | looking the neighbour's node up by its station id and dropping the node itself gives exactly that node's walking edges |
| Graph.TflGraph.RunSearch | src/graph/tfl_graph.rs:184-234 | an unknown start station panics on `unwrap`; otherwise the search either panics (timetable index, `u16` overflow) or finishes with the `Searched` guarantees |
| Graph.TflGraph.TimeDependentDijkstraTop50 | src/graph/tfl_graph.rs:184-248 | unknown start panics; a start with a self-loop never returns; otherwise at most 50 entries for distinct scored stations, each with its minutes since the start minute and its parent chain back to the start, turned into stations |
| Graph.TflGraph.TimeDependentDijkstra | backend/graph/tfl_graph.rs:151-210 | as the top-50 search but with one entry for every scored station and the path given as station ids |
| Graph.AddEdgesOutcome | src/graph/tfl_graph.rs:74-91 | the edge loop succeeds exactly when no record fails, and otherwise panics with the failure of the first failing record |
| Graph.AddEdgeIndexed | src/graph/tfl_graph.rs:75-90 | one record keeps the graph well indexed, only grows it, files exactly its two stops in addition, and every new node is its stop's station |
| Graph.AddEdgesIndexed | src/graph/tfl_graph.rs:74-91 | after all records the graph is well indexed, has grown, and files exactly the old ids plus every stop the records mention |
| Graph.AddEdgeAppends | src/graph/tfl_graph.rs:88-90 | one record appends exactly one edge, from its origin's node to its destination's node, weighted by its converted timetable |
| Graph.AddEdgesEdges | src/graph/tfl_graph.rs:74-91 | the edge loop appends exactly one edge per record, in record order, each joining the nodes of that record's stops |
| Graph.AddEdgesReadsOnlyItsStops | backend/graph/tfl_graph.rs:68-77 | two stop maps that agree on the stops the records mention give the same graph or panic |
| Graph.AddEdgesFifo | src/graph/connection.rs:21-51 | edges added from records with increasing departures keep every edge FIFO (leaving later never arrives earlier) |
| Graph.WalkingFifo | src/graph/connection.rs:60-66 | every walking edge is FIFO |
| Graph.WalkingWithin | src/graph/tfl_graph.rs:112-123 | when the neighbour index reports only graph nodes, every walking edge joins two graph nodes |
| Graph.StationPaths | src/graph/tfl_graph.rs:236-247 | one entry per answer, in order: its minutes, its station and the stations of its chain |
| Graph.IdPaths | backend/graph/tfl_graph.rs:198-209 | one entry per answer, in order: its minutes, its station and the station ids of its chain |
| Graph.PathOf | src/graph/tfl_graph.rs:250-257 | `get_path` for a scored node fails to return exactly when the start has a self-loop; otherwise its chain runs through the parents to the start and its minutes are the score less the start minute |
| Graph.CollectPaths | src/graph/tfl_graph.rs:236-247 | walking the scores in any order gives answers for distinct scored nodes, as many as the limit allows (all of them without one), and diverges exactly on a start self-loop |
| Graph.AnswerIsEarliest | src/graph/tfl_graph.rs:199-234 | over FIFO edges an answer's minutes are those of the earliest journey from the start to its station: one journey arrives then and none arrives sooner |
| Search.FifoOfWalking | src/graph/connection.rs:60-66 | a walking edge never waits, so leaving later never arrives earlier |
| Search.FifoOfTimetable | src/graph/connection.rs:21-51 | an edge built from a strictly increasing departure list is FIFO |
| Search.NoEarlierJourney | src/graph/tfl_graph.rs:199-234 | lower bound: when every edge out of a settled node is relaxed, no journey from the start reaches a node before its settled minute, and every node a journey reaches is settled |
| Search.TreeWalkArrives | src/graph/tfl_graph.rs:216-230 | upper bound: the edges that set each node's score form a journey from the start arriving exactly at the settled minute |
| Search.LeastExists | src/graph/tfl_graph.rs:199 | a heap that is not empty holds an entry with a least score, so `BinaryHeap::pop` on `MinScored` always has one to yield |
| Search.PickLeast | src/graph/tfl_graph.rs:199 | `pop` yields some position holding a least score, whichever one among ties |
| Search.RelaxEdge | src/graph/tfl_graph.rs:210-231 | panics exactly on a timetable index past the day or a `u16` sum above 65535; otherwise the best score and the parent change together only on a strict improvement and the target is queued with its best score |
| Search.VisitEdge | src/graph/tfl_graph.rs:204-209 | an edge into a visited node leaves the state unchanged; any other is relaxed; the expansion invariant is kept |
| Search.ExpandNode | src/graph/tfl_graph.rs:203-232 | relaxing every edge of the node (newest first) leaves all of them relaxed, changes neither the visited nor the settled nodes, and panics only with the two panics of the sum |
| Search.PopNext | src/graph/tfl_graph.rs:199-233 | popping a least entry: a visited node is skipped and the heap shrinks; otherwise the node is settled, expanded and marked visited, keeping the loop invariant |
| Search.Explore | src/graph/tfl_graph.rs:189-234 | the search from the start entry either panics with one of the two panics or ends with the heap empty, every settled node's edges relaxed, a search tree of parents and every score at or after the start minute |
| Search.SearchedIsEarliest | src/graph/tfl_graph.rs:184-234 | over FIFO edges the search settles exactly the nodes some journey reaches, each at the earliest arrival over all journeys |
| Search.GetPath | src/graph/tfl_graph.rs:250-257 | `get_path` returns the parent chain from the child up to a node without a parent, or runs forever at a node that is its own parent |
| Search.ChainEndsAtStart | src/graph/tfl_graph.rs:216-230 | on a finished search every parent chain from a scored node ends at the start, and it returns exactly when the start has no parent |
| Search.SettlingOrderRanks | src/graph/tfl_graph.rs:221 | every parent other than a node itself was settled before the node, so `get_path` terminates unless it meets a self-parent |
| Search.ChainFollowsEdges | src/graph/tfl_graph.rs:216-230 | each step of a parent chain follows a graph edge backwards, and the later node is settled at that edge's arrival from the earlier one |
| Stations.StationOf | src/graph/station.rs:13-19 | the station keeps the stop's id, takes its common name as name, and sits at its latitude and longitude |
| Text.Split | backend/graph/location.rs:42 | `split` gives at least one piece and no piece holds the separator |
| Text.SplitJoin | backend/graph/location.rs:42-43 | splitting pieces joined by a separator none of them holds gives the pieces back |
| Text.IntToStringRoundTrip | frontend/src/components/BoundsCard.tsx:70-73 | parsing an integer's decimal numeral gives the integer back |
| Text.ParseF64IntToString | backend/graph/location.rs:44-45 | `parse::<f64>` reads an integer numeral as that number |
| Text.ParseF64 | backend/graph/location.rs:44-45 | `parse::<f64>` rejects the empty string, reads a digit string as its value and a '-' before digits as the negated value |
| GraphLoader.StopPointMap | src/db/graph_loader.rs:31-38 | fetching the stops by id panics (`unwrap` on `None`) exactly when some id has no stop; otherwise the map holds exactly those ids, each with its stop |
| GraphLoader.CoversOfStopIds | src/db/graph_loader.rs:25-38 | a map holding every gathered stop id has both stops of every record, so the later `unwrap`s cannot fail |
| GraphLoader.TflPairs | src/db/graph_loader.rs:41-55 | one pair per record, in order, joining the stations of its origin and destination with its timetabled weight; panics exactly when some departure list is not strictly increasing |
| GraphLoader.NodeMap | src/db/graph_loader.rs:57-61 | an id is in the node map exactly when some pair starts or ends at a station with that id |
| GraphLoader.NodeMapOfTflPairs | src/db/graph_loader.rs:41-62 | the nodes are exactly the stops the records mention, each the station of its stop, whichever duplicate the map kept |
| GraphLoader.WalkingPairsOf | src/db/graph_loader.rs:71-85 | one pair per reported neighbour, in order, from the node to the neighbour with the walking weight of its distance |
| GraphLoader.WalkingPairsMembers | src/db/graph_loader.rs:69-87 | a walking pair is exactly a node joined to one of its reported neighbours at that neighbour's walking weight |
| GraphLoader.WalkingPairsIncludeSelf | src/db/graph_loader.rs:71-86 | with no self filter, a node reported at distance 0 from itself is paired with itself at zero minutes |
| GraphLoader.PairRepository.constructor | src/db/graph_loader.rs:89 | the collection starts with the given documents |
| GraphLoader.PairRepository.Drop | src/db/graph_loader.rs:90 | after `drop` the collection is empty |
| GraphLoader.PairRepository.InsertMany | src/db/graph_loader.rs:91-92 | `insert_many` appends the documents in order |
| GraphLoader.GraphPairs | src/db/graph_loader.rs:18-95 | the run fails exactly when a stop id has no stop point (`unwrap`) or, failing that, some departure list is not strictly increasing, with that panic |
| GraphLoader.GraphPairsMeaning | src/db/graph_loader.rs:41-92 | on success the collection holds one pair per record in record order, each station built from its stop point. Then come exactly the walking pairs of every stop id's station, with each node visited once: their number is the sum over the nodes of the neighbours the ball tree reports |
| GraphLoader.WalkingPairsLength | src/db/graph_loader.rs:71-85 | the walking pairs number one per reported neighbour of each listed node |
| GraphLoader.LoadGraphData | src/db/graph_loader.rs:18-95 | a panic leaves the collection untouched; otherwise it is dropped and refilled with exactly the transit pairs followed by the walking pairs |
| App.Append | frontend/src/App.jsx:46-48 | `[...list, x]`: the old list followed by exactly the new element |
| App.RemoveAt | frontend/src/App.jsx:56-58 | `filter` by index drops exactly the element at an index inside the list, and keeps the list whole for any other index |
| App.ReplaceAt | frontend/src/App.jsx:50-54 | the copy has the new element at the index and every other element unchanged |
| App.RemoveAppended | frontend/src/App.tsx:139-145 | deleting the place just added gives the list back |
| App.RemoveReplaced | frontend/src/App.jsx:50-58 | changing a place and then deleting it is the same as deleting it |
| App.DetermineLongestPath | frontend/src/App.jsx:88-100 | the two nested loops build exactly the dictionary of the journeys visited in order, keeping the longer one per destination |
| App.ValuesIn | frontend/src/App.jsx:108 | `Object.values` of the dictionary: one value per listed key, in the listed order |
| App.MakeLongestCircles | frontend/src/App.jsx:104-115 | `makeCircles` over the longest-journey dictionary is `Circles.MakeCircles` of its values (each circle as `makeCircle`, frontend/src/App.jsx:66-76, builds it); exactly one circle is drawn per bound and destination whose longest journey is shorter than the bound |
| App.LongestOfKeys | frontend/src/App.jsx:88-100 | the dictionary has an entry for exactly the destinations some fetched journey reaches |
| App.LongestOfEntry | frontend/src/App.jsx:92-95 | each entry is a journey to its destination that no other journey there exceeds, the first such one seen |
| App.Shortest | frontend/src/App.tsx:151 | `Math.min` of the minutes: one of them and no more than any; none (`Infinity`) exactly for an empty list |
| App.ComputeBounds | frontend/src/App.tsx:150-158 | only the first bound changes; it becomes the shortest journey plus the gap, capped at the second bound, and is the second bound when there are no journeys |
| App.ComputeBoundsFirstRing | frontend/src/App.jsx:117-125 | some journey falls inside the new first bound exactly when some journey falls inside the second bound, so the innermost ring is never needlessly empty |
| App.EntriesKeys | frontend/src/App.jsx:154-161 | the collected data has an entry for exactly the keys of the places |
| App.Key | frontend/src/App.jsx:158 | the key of a place ends with '/' and the time |
| App.Lookup | frontend/src/App.jsx:159-165 | a cached key gives the cached data without a request; otherwise the back end's answer for the URL of the key |
| App.KeyUrlIsQueryUrl | frontend/src/App.jsx:158-164 | for one place, the URL `fetchAllData` requests is the one `queryJourneys` builds (frontend/src/api/journeyApi.ts:16-18) |
| App.EntriesValues | frontend/src/App.jsx:158-165 | every entry holds the cached data for its key, or what the back end answers for the key's URL |
| App.FirstUncached | frontend/src/App.jsx:156-167 | the first place whose key is not cached: every earlier key is cached; none only when every key is cached |
| App.FetchAllDataAsWritten | frontend/src/App.jsx:149-171 | as written: no places gives `{}`; otherwise the data of the places up to and including the first uncached one, or, when all are cached, the data only if the cache holds more keys than there are places (`undefined` otherwise) |
| App.FetchAllData | frontend/src/App.jsx:149-171 | the evidently intended loop: the data of every place, cached or fetched |
| App.FetchStopsAfterFirst | frontend/src/App.jsx:162-167 | with nothing cached and two places, the second place's key is missing from what the function as written returns, though the intended result has it |
| App.FetchUndefinedWhenCached | frontend/src/App.jsx:169-170 | with the one place cached and nothing else in the cache, the function as written reaches the end and returns `undefined` |
| AppTs.GetLocsFromUrl | frontend/src/App.tsx:33-37 | one place per `locations` value of the URL, in order, each read with `fromString` |
| AppTs.GetAll | frontend/src/App.tsx:35 | `getAll` gives the values of exactly the entries of the name, and no more values than entries |
| AppTs.Without | frontend/src/App.tsx:130 | after `delete` exactly the entries of other names remain |
| AppTs.SearchParams.constructor | frontend/src/App.tsx:50 | the search parameters hold the given entries |
| AppTs.SearchParams.Delete | frontend/src/App.tsx:130 | `delete` drops every entry of the name and keeps the others in order |
| AppTs.SearchParams.Append | frontend/src/App.tsx:133 | `append` adds one entry at the end |
| AppTs.LocationEntries | frontend/src/App.tsx:132-134 | one entry per place, in order, each the name with the place written by `toString` |
| AppTs.SetArrayParam | frontend/src/App.tsx:129-137 | the entries become the others in order followed by one entry per place, in order |
| AppTs.GetAllAfterSet | frontend/src/App.tsx:129-137 | after `setArrayParam` the values of the name are exactly the new ones, in order |
| AppTs.NoneLeft | frontend/src/App.tsx:130 | after `delete` no value of the name is left |
| AppTs.UrlRoundTrip | frontend/src/App.tsx:33-37 | writing the places into the URL and reading them back gives them back, whatever else the URL holds, as long as no name has a comma |
| BoundsCard.HandledUpTo | frontend/src/components/BoundsCard.tsx:30-40 | after the first `k` iterations the thumbs from `k` on still hold their raw values |
| BoundsCard.HandleChange | frontend/src/components/BoundsCard.tsx:29-42 | the handler as written rewrites the array in place to exactly the loop's result with the upper clamp taken from the raw value |
| BoundsCard.HandleChangeClamped | frontend/src/components/BoundsCard.jsx:23-36 | corrected version of those lines, not in the source: the handler rewrites the array to the loop's result with the upper clamp applied to the lower-clamped value |
| BoundsCard.HandledUpToStable | frontend/src/components/BoundsCard.tsx:30-40 | later iterations leave the values already written alone |
| BoundsCard.HandleChangeResult | frontend/src/components/BoundsCard.tsx:33-38 | as written an unmoved thumb keeps its value, a moved interior thumb ends at the smaller of its raw value and its right neighbour minus the gap (its lower clamp is lost), and the last thumb is raised to its left neighbour plus the gap |
| BoundsCard.ClampedKeepsSpacing | frontend/src/components/BoundsCard.tsx:29-42 | with both clamps, dragging one thumb of bounds at least the gap apart leaves them at least the gap apart |
| BoundsCard.UntouchedPrefix | frontend/src/components/BoundsCard.tsx:31 | before the moved thumb the loop rewrites nothing |
| BoundsCard.UnmovedSuffix | frontend/src/components/BoundsCard.tsx:31 | after the moved thumb the loop rewrites nothing more |
| BoundsCard.InteriorLowerClampLost | frontend/src/components/BoundsCard.tsx:33-38 | as written, dragging the second of the bounds 15, 30, 45, 60 down to 17 leaves it 2 minutes above the first |
| BoundsCard.ValueLabelDecodes | frontend/src/components/BoundsCard.tsx:70-73 | the thumb label "prev-val mins" reads back as the previous bound (0 for the first) and the value |
| BoundsCard.ValueLabel | frontend/src/components/BoundsCard.tsx:70-73 | the thumb label ends with " mins", and the first thumb's starts with "0-" |
| Circles.MakeCircle | frontend/src/components/Circles.tsx:27-46 | centred on the destination, with the minutes left before the bound to walk, a radius of the walking speed times those minutes plus a half, and the key of destination id and colour |
| Circles.Reverse | frontend/src/components/Circles.tsx:24 | the same elements in the opposite order |
| Circles.Ring | frontend/src/components/Circles.tsx:17-19 | one bound's circles: no more than the journeys, each in the bound's colour with positive walking minutes and radius |
| Circles.InOrder | frontend/src/components/Circles.tsx:15-21 | the circles pushed bound by bound all have positive walking minutes and radius |
| Circles.MakeCircles | frontend/src/components/Circles.tsx:10-25 | the rings pushed bound by bound and then reversed |
| Circles.RingMembers | frontend/src/components/Circles.tsx:17-19 | a ring holds exactly one circle per journey shorter than its bound |
| Circles.InOrderMembers | frontend/src/components/Circles.jsx:8-19 | the circles are exactly, for every bound, those of the journeys shorter than it in that bound's colour, one per such pair |
| Circles.WalkingMinutesPositive | frontend/src/components/Circles.tsx:18-19 | every circle drawn has walking minutes left and a positive radius |
| LocationTs.ParseFloat | frontend/src/components/Location.ts:12 | `parseFloat` of a field: the number of a decimal numeral, `NaN` for anything else or a missing field |
| LocationTs.FromString | frontend/src/components/Location.ts:10-14 | the name is the text before the first comma and holds none; the coordinates are the next two fields read with `parseFloat` |
| LocationTs.ToString | frontend/src/components/Location.ts:16-18 | the name and the two coordinates joined by commas |
| LocationTs.ShowNaN | frontend/src/components/Location.ts:17 | `NaN` is written without a comma and reads back as `NaN` |
| LocationTs.FromStringToString | frontend/src/components/Location.ts:10-18 | writing a place and reading it back gives it back when its name has no comma |
| LocationTs.CommaInNameIsLost | frontend/src/components/Location.ts:11 | a comma in a name cuts it short on the way back |
| JourneyApi.ToCoordStringDecodes | frontend/src/api/journeyApi.ts:24-26 | the coordinate string splits at ',' into the two numbers, which read back as the coordinates |
| JourneyApi.ToCoordString | frontend/src/api/journeyApi.ts:24-26 | the latitude's text, one ',' and the longitude's text |
| JourneyApi.ToKey | frontend/src/api/journeyApi.ts:28-30 | the key is empty exactly when there are no places, starts with the first place's coordinate string, and is that string for one place |
| JourneyApi.QueryUrl | frontend/src/api/journeyApi.ts:18 | the URL starts with the back-end URL, ends with '/' and the time, and is "traveltime/", the key and '/' longer than both |
| JourneyApi.QueryJourneys | frontend/src/api/journeyApi.ts:7-22 | no places gives `[]` with no request; otherwise one request for the URL of the key and the time, answering what the back end returns |
| JourneyApi.ToKeyDecodes | frontend/src/api/journeyApi.ts:28-30 | the key splits at '_' into one piece per place, each splitting into that place's two coordinates |
| LocationCard.Names | frontend/src/components/LocationCard.tsx:13 | the names of the places, in order |
| LocationCard.OnNewLoc | frontend/src/components/LocationCard.tsx:15-22 | a name already listed gives "No duplicates" and leaves the list alone; otherwise the error clears and the place is appended |
| LocationCard.OnNewLocKeepsNamesDistinct | frontend/src/components/LocationCard.tsx:15-22 | adding places through the card keeps every name distinct |

## Left out

- Database access is not modelled. This covers the Mongo client, cursors, `get_all`, `find`, `create_index`, paging, and the `?` on database errors. Fetched records are inputs: a sequence of records, or a map of stop points by id. Repositories are classes holding a map or a list.
- `src/db/mongo_loader.rs`, the upstream API clients, the request and response shapes, the S3 download, and the HTTP servers are not part of this model. They are I/O and serde plumbing.
- Graph caching (`from_cache`, `cache`, `cache2`) is not modelled because it is file and JSON I/O. This includes the `cache2` slip that writes the edge source for both ends.
- The nearest-neighbour ball tree is a foreign library. Its query is a parameter that reports, for each node, the neighbours within 1000 m and their distances. Haversine distance and `move_towards` are floating point and are left out.
- The order a `HashMap` is iterated in is unspecified. In the graph the contracts hold for any order. In the loader the order is the parameter `order`, which GraphLoader.GraphPairs, GraphLoader.GraphPairsMeaning and GraphLoader.LoadGraphData require to list every node of the map exactly once, as iterating the map does.
- `backend/graph/path.rs` and `src/db/mongo_doc.rs` are not part of this model. A node pair's `set_id` is the default no-op of `backend/src/db/mongo_doc.rs`.
- Concurrency is not modelled: `buffer_unordered`, `join_all`, the server's `RwLock`, and the front end's `async` ordering.
- Graph.TflGraph.AddStations, Graph.TflGraph.AddStationsFetched, GraphLoader.LoadGraphData and DataFixer.FixStopPointRepo require that the stop map files every stop under its own id, which is what a repository keyed by `_id` holds.
- DataFixer.FixDirectConnectionRepo requires that each stored record is filed under its own id, which is what `insert_or_replace` keeps.
- Connection.FromDirectConnection, Search.RelaxEdge and the search members that call them (Search.VisitEdge, Search.ExpandNode, Search.Explore, Graph.TflGraph.RunSearch) report `usize` underflow and `u16` overflow as a panic, as a debug build does. A release build wraps around instead and goes on with the wrapped value; the model does not cover that build. Connection.SaturatingU16 is the `as` cast, which saturates in both builds.
- QueryParameters.PairsJson, QueryParameters.PairsJsonRoundTrip and QueryParameters.ExtraQueryParams.Serialize stop at serde's data model: a sequence of two-string sequences, written here as a small JSON-like tree. The wire form, which reqwest's `.query()` URL-encodes as `key=value` pairs, is not modelled.
- Search.Explore and Graph.TflGraph.RunSearch name only the kind of panic (table index or `u16` overflow), not the step at which it happens.
- Graph.TflGraph.TimeDependentDijkstraTop50 does not say which 50 of the scored stations are returned. `take(50)` keeps the first 50 in the `HashMap`'s order, which is unspecified.
- DataFixer.IdToTiploc treats only the ASCII letters as alphabetic. Rust's `is_alphabetic` also accepts other Unicode letters; stop ids are ASCII.
- TimetableLoader.TimestrToTime reads two digits for the hour and two for the minute. chrono's `%H:%M` also accepts one-digit fields, which National Rail times never use. It also slices by character, where `&s[0..2]` and `&s[3..5]` slice by byte and panic off a character boundary; timetable times are ASCII, where the two agree.
- App.ReplaceAt requires an index inside the list. Assigning past the end of a JavaScript array leaves holes, which the model does not represent.
- App.ComputeBounds requires at least two bounds, as the slider always has.
- LocationTs.ParseFloat reads decimal literals and gives `NaN` for anything else. It does not model `parseFloat`'s reading of a numeric prefix, leading whitespace, exponents or `Infinity`.
- Text.ParseF64 and GeoLocation.TryParseLoc read only decimal literals with an optional sign. Rust's `parse::<f64>` also accepts exponent forms ("1e1", "1E-7"), `inf`, `infinity` and `NaN`, in any case; the model gives nothing for them, so `TryParseLoc` rejects "1e1,2", "inf,0" and "NaN,NaN", which the code accepts.
- `f64` and JavaScript numbers are modelled as exact reals, so rounding is not modelled. This covers the rounding of `parse::<f64>` in Text.ParseF64 and GeoLocation.TryParseLoc, the division `dist / 80.` in Connection.FromDist before its saturating cast, and the numbers of LocationTs and Circles.
- A failed request is not modelled. In `fetchAllData` and `queryJourneys` an `axios.get` that rejects propagates out of the function, as neither catches it. In App.FetchAllData, App.FetchAllDataAsWritten and JourneyApi.QueryJourneys the back end's answer is the parameter `respond`, which always answers. The `signal: AbortSignal` parameter of `queryJourneys` is dropped too; its only caller passes none.
- Turning a JavaScript number into text is the parameter `show`. The round-trip lemmas assume it writes no comma and reads back as the same number.
- `encodeURI` is not modelled; the URL is the text before encoding.
- React rendering, state setters and navigation are outside the logic that is modelled. This covers `setSearchParams`, the health-check timers, and each location entry being rendered with its index.
- Circles.MakeCircle uses the walking speed of `config.ts` for both `Circles` files and for `App.jsx`. `Circles.jsx` and `App.jsx` read it from `config.json`, which is not part of this model.
- App.MakeLongestCircles takes the order in which `Object.values` lists the dictionary as the parameter `order`, required to list every key once. The dictionary's insertion order, which `Object.values` follows, is not kept by a `map`, so the model does not say in which order the circles of one bound are drawn.
- JourneyApi.QueryJourneys does not model a journey's `path` field, which none of the modelled code reads.
- `src/national_rail/timetable_loader.rs`: the XML parsing of the timetable is not modelled; journeys arrive as parsed lists of calling points.

## Findings

| source | as written | input that shows it | evidently intended | confidence | as-written member | corrected member |
|---|---|---|---|---|---|---|
| frontend/src/components/BoundsCard.tsx:33-38 | for an interior thumb, the upper clamp `Math.min(newVal, …)` starts again from the raw value, discarding the lower clamp (the same lines are frontend/src/components/BoundsCard.jsx:27-32) | bounds 15, 30, 45, 60 with the second dragged to 17: the result keeps 17, only 2 minutes above 15 | apply the upper clamp to the lower-clamped value, so dragging one thumb keeps every neighbour at least `minBoundSize` apart | not executed | BoundsCard.HandleChange, BoundsCard.InteriorLowerClampLost | BoundsCard.HandleChangeClamped, BoundsCard.ClampedKeepsSpacing |
| frontend/src/App.jsx:162-167 | `return newData` inside the loop, right after the first uncached fetch | two places, nothing cached: only the first place's data is returned | fetch every uncached place and return the data of all places | not executed | App.FetchAllDataAsWritten, App.FetchStopsAfterFirst | App.FetchAllData, App.EntriesKeys |
| frontend/src/App.jsx:169-170 | when every place is cached, data is returned only if the cache holds more keys than there are places | one place, already the only cached key: the function returns `undefined` | return the collected data whenever the loop completes | not executed | App.FetchAllDataAsWritten, App.FetchUndefinedWhenCached | App.FetchAllData, App.EntriesValues |
