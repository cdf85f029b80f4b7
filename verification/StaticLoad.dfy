/** ingest_static_feed: chunked upserts in foreign-key order, stop_times wiped and filled again, all
    in one transaction. */
module StaticLoad {
  import opened Basics
  import opened ChunkedUpsert
  import opened StaticFeed

  const BATCH := 1000
  const STOP_TIMES_BATCH := 5000

  datatype Db = Db(agencies: map<string, Agency>, routes: map<string, Route>, stops: map<string, Stop>,
                   trips: map<string, Trip>, calendar: map<string, Service>, exceptions: map<ServiceDay, int>,
                   stopTimes: map<TripStop, StopTime>)

  // ---------------------------------------------------------------- one load, table after table

  function Anything<K, V>(): Row<K, V> -> bool { row => true }

  function KnowsAgency(agencies: map<string, Agency>): Row<string, Route> -> bool {
    (row: Row<string, Route>) => row.1.agency in agencies
  }

  function KnowsRoute(routes: map<string, Route>): Row<string, Trip> -> bool {
    (row: Row<string, Trip>) => row.1.route in routes
  }

  function KnowsTripAndStop(trips: map<string, Trip>, stops: map<string, Stop>): Row<TripStop, StopTime> -> bool {
    (row: Row<TripStop, StopTime>) => row.0.0 in trips && row.1.stop in stops
  }

  function Merged<K(==), V>(table: map<K, V>, rows: Option<seq<Row<K, V>>>, refers: Row<K, V> -> bool)
    : Result<map<K, V>, Failure>
  {
    if rows.None? then Err(BadCell) else Upserted(table, rows.value, BATCH, refers)
  }

  /** Plain INSERT of one chunk: a key already present is an error as much as a repeated one. */
  function Inserted<K(==), V>(table: map<K, V>, rows: seq<Row<K, V>>, refers: Row<K, V> -> bool)
    : Result<map<K, V>, Failure>
  {
    if RepeatsKey(rows) || exists i :: 0 <= i < |rows| && rows[i].0 in table then Err(RepeatedKey)
    else if !AllRefer(rows, refers) then Err(DanglingReference)
    else Ok(Override(table, rows))
  }

  function InsertedInChunks<K(==), V>(table: map<K, V>, rows: seq<Row<K, V>>, batch: nat, refers: Row<K, V> -> bool)
    : Result<map<K, V>, Failure>
    requires 0 < batch
    decreases |rows|
  {
    if rows == [] then Ok(table)
    else
      var n := FirstChunk(|rows|, batch);
      var table' :- Inserted(table, rows[..n], refers);
      InsertedInChunks(table', rows[n..], batch, refers)
  }

  /** DELETE, then the chunked INSERT. */
  function Replaced(rows: Option<seq<Row<TripStop, StopTime>>>, refers: Row<TripStop, StopTime> -> bool)
    : Result<map<TripStop, StopTime>, Failure>
  {
    if rows.None? then Err(BadCell) else InsertedInChunks(map[], rows.value, STOP_TIMES_BATCH, refers)
  }

  function ExceptionRows(p: Parsers, frames: Frames): Option<seq<Row<ServiceDay, int>>> {
    if "calendar_dates.txt" in frames then Collect(frames["calendar_dates.txt"], ExceptionParser(p)) else Some([])
  }

  function Loaded(p: Parsers, db: Db, frames: Frames): Result<Db, Failure> {
    if !(REQUIRED_FILES <= frames.Keys) then Err(MissingFile)
    else
      var agencies :- Merged(db.agencies, Collect(frames["agency.txt"], AgencyOf), Anything());
      var routes :- Merged(db.routes, Collect(frames["routes.txt"], RouteParser(p)), KnowsAgency(agencies));
      var stops :- Merged(db.stops, Collect(frames["stops.txt"], StopParser(p)), Anything());
      var trips :- Merged(db.trips, Collect(frames["trips.txt"], TripParser(p)), KnowsRoute(routes));
      var calendar :- Merged(db.calendar, Collect(frames["calendar.txt"], ServiceParser(p)), Anything());
      var exceptions :- Merged(db.exceptions, ExceptionRows(p, frames), Anything());
      var stopTimes :- Replaced(Collect(frames["stop_times.txt"], StopTimeParser(p)), KnowsTripAndStop(trips, stops));
      Ok(Db(agencies, routes, stops, trips, calendar, exceptions, stopTimes))
  }

  /** session_scope: a load commits as a whole or leaves the database as it was. */
  function Committed(p: Parsers, db: Db, frames: Frames): Db {
    var r := Loaded(p, db, frames);
    if r.Ok? then r.value else db
  }

  // ---------------------------------------------------------------- the same load in one look

  ghost predicate Resolves<K, V>(table: map<K, V>, rows: seq<Row<K, V>>, k: K) {
    k in table || Mentions(rows, k)
  }

  /** What the rows of a feed and the old tables must satisfy. */
  ghost predicate Loadable(db: Db, r: Rows) {
    && !RepeatsWithin(r.agencies, BATCH) && !RepeatsWithin(r.routes, BATCH) && !RepeatsWithin(r.stops, BATCH)
    && !RepeatsWithin(r.trips, BATCH) && !RepeatsWithin(r.calendar, BATCH) && !RepeatsWithin(r.exceptions, BATCH)
    && !RepeatsKey(r.stopTimes)
    && (forall i :: 0 <= i < |r.routes| ==> Resolves(db.agencies, r.agencies, r.routes[i].1.agency))
    && (forall i :: 0 <= i < |r.trips| ==> Resolves(db.routes, r.routes, r.trips[i].1.route))
    && (forall i :: 0 <= i < |r.stopTimes| ==> Resolves(db.trips, r.trips, r.stopTimes[i].0.0))
    && (forall i :: 0 <= i < |r.stopTimes| ==> Resolves(db.stops, r.stops, r.stopTimes[i].1.stop))
  }

  function Overridden(db: Db, r: Rows): Db {
    Db(Override(db.agencies, r.agencies), Override(db.routes, r.routes), Override(db.stops, r.stops),
       Override(db.trips, r.trips), Override(db.calendar, r.calendar), Override(db.exceptions, r.exceptions),
       Override(map[], r.stopTimes))
  }

  lemma RepeatsKeySplit<K, V>(rows: seq<Row<K, V>>, n: nat)
    requires n <= |rows|
    ensures RepeatsKey(rows) <==> RepeatsKey(rows[..n]) || RepeatsKey(rows[n..])
                                  || exists j :: n <= j < |rows| && Mentions(rows[..n], rows[j].0)
  {
    if RepeatsKey(rows) {
      var i, j :| 0 <= i < j < |rows| && rows[i].0 == rows[j].0;
      if j < n {
        assert rows[..n][i].0 == rows[..n][j].0;
      } else if n <= i {
        assert rows[n..][i - n].0 == rows[n..][j - n].0;
      } else {
        assert rows[..n][i].0 == rows[j].0;
        assert Mentions(rows[..n], rows[j].0);
      }
    }
    if RepeatsKey(rows[..n]) {
      var i, j :| 0 <= i < j < n && rows[..n][i].0 == rows[..n][j].0;
      assert rows[i].0 == rows[j].0;
    }
    if RepeatsKey(rows[n..]) {
      var i, j :| 0 <= i < j < |rows[n..]| && rows[n..][i].0 == rows[n..][j].0;
      assert rows[i + n].0 == rows[j + n].0;
    }
    if j :| n <= j < |rows| && Mentions(rows[..n], rows[j].0) {
      var i :| 0 <= i < n && rows[..n][i].0 == rows[j].0;
      assert rows[i].0 == rows[j].0;
    }
  }

  ghost predicate MeetsTable<K, V>(table: map<K, V>, rows: seq<Row<K, V>>) {
    exists i :: 0 <= i < |rows| && rows[i].0 in table
  }

  lemma MeetsOverride<K, V>(table: map<K, V>, rows: seq<Row<K, V>>, n: nat)
    requires n <= |rows|
    ensures MeetsTable(table, rows[..n]) || MeetsTable(Override(table, rows[..n]), rows[n..])
        <==> MeetsTable(table, rows) || exists j :: n <= j < |rows| && Mentions(rows[..n], rows[j].0)
  {
    var table' := Override(table, rows[..n]);
    forall j | n <= j < |rows|
      ensures rows[n..][j - n] == rows[j]
      ensures rows[j].0 in table' <==> rows[j].0 in table || Mentions(rows[..n], rows[j].0)
    {
      OverrideOrigin(table, rows[..n], rows[j].0);
    }
    if MeetsTable(table', rows[n..]) {
      var i :| 0 <= i < |rows[n..]| && rows[n..][i].0 in table';
      assert rows[i + n].0 in table';
    }
    if MeetsTable(table, rows) {
      var i :| 0 <= i < |rows| && rows[i].0 in table;
      if i < n {
        assert rows[..n][i].0 in table;
      } else {
        assert rows[n..][i - n].0 in table';
      }
    }
    if MeetsTable(table, rows[..n]) {
      var i :| 0 <= i < n && rows[..n][i].0 in table;
      assert rows[i].0 in table;
    }
    if j :| n <= j < |rows| && Mentions(rows[..n], rows[j].0) {
      assert rows[n..][j - n].0 in table';
    }
  }

  lemma InsertedIff<K, V>(table: map<K, V>, rows: seq<Row<K, V>>, refers: Row<K, V> -> bool)
    ensures Inserted(table, rows, refers).Ok? <==>
              !RepeatsKey(rows) && !MeetsTable(table, rows) && AllRefer(rows, refers)
    ensures Inserted(table, rows, refers).Ok? ==> Inserted(table, rows, refers).value == Override(table, rows)
  {
  }

  /** A plain chunked INSERT succeeds exactly if no key is repeated anywhere, whatever the chunk size. */
  lemma {:induction false} InsertIsOverride<K, V>(table: map<K, V>, rows: seq<Row<K, V>>, batch: nat,
                                                  refers: Row<K, V> -> bool)
    requires 0 < batch
    ensures InsertedInChunks(table, rows, batch, refers).Ok?
        <==> !RepeatsKey(rows) && !MeetsTable(table, rows) && AllRefer(rows, refers)
    ensures InsertedInChunks(table, rows, batch, refers).Ok? ==>
              InsertedInChunks(table, rows, batch, refers).value == Override(table, rows)
    decreases |rows|
  {
    if rows != [] {
      hide Override, RepeatsKey, Mentions, MeetsTable, AllRefer, Inserted;
      var n := FirstChunk(|rows|, batch);
      RepeatsKeySplit(rows, n);
      MeetsOverride(table, rows, n);
      OverrideAppend(table, rows[..n], rows[n..]);
      AllReferSplit(rows, n, refers);
      assert rows[..n] + rows[n..] == rows;
      var step := Inserted(table, rows[..n], refers);
      InsertedIff(table, rows[..n], refers);
      if step.Ok? {
        InsertIsOverride(step.value, rows[n..], batch, refers);
      }
    }
  }

  lemma MergedIsOverride<K, V>(table: map<K, V>, rows: Option<seq<Row<K, V>>>, refers: Row<K, V> -> bool)
    ensures Merged(table, rows, refers).Ok? <==>
              rows.Some? && !RepeatsWithin(rows.value, BATCH) && AllRefer(rows.value, refers)
    ensures Merged(table, rows, refers).Ok? ==> Merged(table, rows, refers).value == Override(table, rows.value)
  {
    if rows.Some? {
      ChunkedIsOverride(table, rows.value, BATCH, refers);
    }
  }

  lemma ReplacedIsOverride(rows: Option<seq<Row<TripStop, StopTime>>>, refers: Row<TripStop, StopTime> -> bool)
    ensures Replaced(rows, refers).Ok? <==> rows.Some? && !RepeatsKey(rows.value) && AllRefer(rows.value, refers)
    ensures Replaced(rows, refers).Ok? ==> Replaced(rows, refers).value == Override(map[], rows.value)
  {
    if rows.Some? {
      InsertIsOverride(map[], rows.value, STOP_TIMES_BATCH, refers);
    }
  }

  lemma ResolvesAfter<K, V>(table: map<K, V>, rows: seq<Row<K, V>>)
    ensures forall k :: k in Override(table, rows) <==> Resolves(table, rows, k)
  {
    forall k
      ensures k in Override(table, rows) <==> Resolves(table, rows, k)
    {
      OverrideOrigin(table, rows, k);
    }
  }

  /** Each table's reference check, against the tables filled just before it, is the condition on the
      feed and the old tables. */
  lemma ReferencesResolve(db: Db, r: Rows)
    ensures AllRefer(r.routes, KnowsAgency(Override(db.agencies, r.agencies))) <==>
              forall i :: 0 <= i < |r.routes| ==> Resolves(db.agencies, r.agencies, r.routes[i].1.agency)
    ensures AllRefer(r.trips, KnowsRoute(Override(db.routes, r.routes))) <==>
              forall i :: 0 <= i < |r.trips| ==> Resolves(db.routes, r.routes, r.trips[i].1.route)
    ensures AllRefer(r.stopTimes, KnowsTripAndStop(Override(db.trips, r.trips), Override(db.stops, r.stops))) <==>
              forall i :: 0 <= i < |r.stopTimes| ==>
                Resolves(db.trips, r.trips, r.stopTimes[i].0.0) && Resolves(db.stops, r.stops, r.stopTimes[i].1.stop)
  {
    hide Override, Resolves;
    ResolvesAfter(db.agencies, r.agencies);
    ResolvesAfter(db.routes, r.routes);
    ResolvesAfter(db.trips, r.trips);
    ResolvesAfter(db.stops, r.stops);
  }

  /** A load succeeds exactly if every required file is there, every row can be read, no batch repeats
      a key, stop_times repeats none at all, and every reference resolves to an old row or to a kept
      row of the feed; it then overrides five tables row by row and replaces stop_times. */
  lemma LoadsIff(p: Parsers, db: Db, frames: Frames)
    ensures Loaded(p, db, frames).Ok? <==> RowsOf(p, frames).Some? && Loadable(db, RowsOf(p, frames).value)
    ensures Loaded(p, db, frames).Ok? ==> Loaded(p, db, frames).value == Overridden(db, RowsOf(p, frames).value)
  {
    hide Merged, Replaced, Override, RepeatsWithin, RepeatsKey, AllRefer, Resolves, Collect,
      KnowsAgency, KnowsRoute, KnowsTripAndStop;
    if REQUIRED_FILES <= frames.Keys {
      var agencies, routes := Collect(frames["agency.txt"], AgencyOf), Collect(frames["routes.txt"], RouteParser(p));
      var stops, trips := Collect(frames["stops.txt"], StopParser(p)), Collect(frames["trips.txt"], TripParser(p));
      var calendar, exceptions := Collect(frames["calendar.txt"], ServiceParser(p)), ExceptionRows(p, frames);
      var stopTimes := Collect(frames["stop_times.txt"], StopTimeParser(p));
      MergedIsOverride(db.agencies, agencies, Anything());
      if agencies.None? { return; }
      var a := Override(db.agencies, agencies.value);
      MergedIsOverride(db.routes, routes, KnowsAgency(a));
      if routes.None? { return; }
      var b := Override(db.routes, routes.value);
      MergedIsOverride(db.stops, stops, Anything());
      if stops.None? { return; }
      MergedIsOverride(db.trips, trips, KnowsRoute(b));
      if trips.None? { return; }
      MergedIsOverride(db.calendar, calendar, Anything());
      MergedIsOverride(db.exceptions, exceptions, Anything());
      ReplacedIsOverride(stopTimes, KnowsTripAndStop(Override(db.trips, trips.value), Override(db.stops, stops.value)));
      if RowsOf(p, frames).Some? {
        var r := RowsOf(p, frames).value;
        ReferencesResolve(db, r);
        AnythingRefers(r.agencies);
        AnythingRefers(r.stops);
        AnythingRefers(r.calendar);
        AnythingRefers(r.exceptions);
      }
    }
  }

  lemma AnythingRefers<K, V>(rows: seq<Row<K, V>>)
    ensures AllRefer(rows, Anything<K, V>())
  {
  }

  // ---------------------------------------------------------------- what a load guarantees

  /** Every foreign key resolves. */
  ghost predicate Intact(db: Db) {
    && (forall k :: k in db.routes ==> db.routes[k].agency in db.agencies)
    && (forall k :: k in db.trips ==> db.trips[k].route in db.routes)
    && (forall k :: k in db.stopTimes ==> k.0 in db.trips && db.stopTimes[k].stop in db.stops)
  }

  /** A load, successful or not, keeps every foreign key resolving. */
  lemma LoadKeepsIntact(p: Parsers, db: Db, frames: Frames)
    requires Intact(db)
    ensures Intact(Committed(p, db, frames))
  {
    LoadsIff(p, db, frames);
    if Loaded(p, db, frames).Ok? {
      OverriddenIsIntact(db, RowsOf(p, frames).value);
    }
  }

  lemma OverriddenIsIntact(db: Db, r: Rows)
    requires Intact(db) && Loadable(db, r)
    ensures Intact(Overridden(db, r))
  {
    hide Override, RepeatsWithin, RepeatsKey, Mentions;
    var d := Overridden(db, r);
    ResolvesAfter(db.agencies, r.agencies);
    ResolvesAfter(db.routes, r.routes);
    ResolvesAfter(db.trips, r.trips);
    ResolvesAfter(db.stops, r.stops);
    forall k | k in d.routes
      ensures d.routes[k].agency in d.agencies
    {
      OverrideOrigin(db.routes, r.routes, k);
    }
    forall k | k in d.trips
      ensures d.trips[k].route in d.routes
    {
      OverrideOrigin(db.trips, r.trips, k);
    }
    forall k | k in d.stopTimes
      ensures k.0 in d.trips && d.stopTimes[k].stop in d.stops
    {
      OverrideOrigin(map[], r.stopTimes, k);
    }
  }

  predicate HasBothTimes(r: Record) {
    Cell(r, "arrival_time") != "" && Cell(r, "departure_time") != ""
  }

  lemma KeptIffBothTimes(p: Parsers, r: Record)
    requires StopTimeOf(p, r).Some?
    ensures StopTimeOf(p, r).value.Some? <==> HasBothTimes(r)
  {
  }

  /** The table holds exactly the parsed rows that have both times. */
  ghost predicate HoldsExactly(p: Parsers, stopTimes: map<TripStop, StopTime>, records: seq<Record>) {
    && (forall i :: 0 <= i < |records| && HasBothTimes(records[i]) ==> Stored(p, stopTimes, records[i]))
    && (forall k :: k in stopTimes ==> Yields(records, StopTimeParser(p), (k, stopTimes[k])))
  }

  ghost predicate Stored(p: Parsers, stopTimes: map<TripStop, StopTime>, r: Record) {
    && StopTimeOf(p, r).Some? && StopTimeOf(p, r).value.Some?
    && var row := StopTimeOf(p, r).value.value; row.0 in stopTimes && stopTimes[row.0] == row.1
  }

  /** After a successful load stop_times holds exactly the feed's rows with both times, one entry
      each, whatever was there before. */
  lemma StopTimesAreTheFeeds(p: Parsers, db: Db, frames: Frames)
    requires Loaded(p, db, frames).Ok?
    ensures RowsOf(p, frames).Some? && "stop_times.txt" in frames
    ensures HoldsExactly(p, Loaded(p, db, frames).value.stopTimes, frames["stop_times.txt"])
    ensures |Loaded(p, db, frames).value.stopTimes| == |RowsOf(p, frames).value.stopTimes|
  {
    hide Loadable, Override, Loaded, RowsOf, Yields, HasBothTimes, StopTimeOf, Stored, Collect;
    LoadsIff(p, db, frames);
    var rows := RowsOf(p, frames).value.stopTimes;
    RowsOfFeed(p, frames);
    LoadableStopTimes(db, RowsOf(p, frames).value);
    OverrideCounts(rows);
    var records := frames["stop_times.txt"];
    forall i | 0 <= i < |records| && HasBothTimes(records[i])
      ensures Stored(p, Override(map[], rows), records[i])
    {
      StopTimeStored(p, records, rows, i);
    }
    forall k | k in Override(map[], rows)
      ensures Yields(records, StopTimeParser(p), (k, Override(map[], rows)[k]))
    {
      StopTimeFromFeed(p, records, rows, k);
    }
  }

  lemma RowsOfFeed(p: Parsers, frames: Frames)
    requires RowsOf(p, frames).Some?
    ensures REQUIRED_FILES <= frames.Keys
    ensures Collect(frames["agency.txt"], AgencyOf) == Some(RowsOf(p, frames).value.agencies)
    ensures Collect(frames["routes.txt"], RouteParser(p)) == Some(RowsOf(p, frames).value.routes)
    ensures Collect(frames["stops.txt"], StopParser(p)) == Some(RowsOf(p, frames).value.stops)
    ensures Collect(frames["trips.txt"], TripParser(p)) == Some(RowsOf(p, frames).value.trips)
    ensures Collect(frames["calendar.txt"], ServiceParser(p)) == Some(RowsOf(p, frames).value.calendar)
    ensures ExceptionRows(p, frames) == Some(RowsOf(p, frames).value.exceptions)
    ensures Collect(frames["stop_times.txt"], StopTimeParser(p)) == Some(RowsOf(p, frames).value.stopTimes)
  {
    hide Collect;
  }

  lemma StopTimeStored(p: Parsers, records: seq<Record>, rows: seq<Row<TripStop, StopTime>>, i: nat)
    requires Collect(records, StopTimeParser(p)) == Some(rows) && !RepeatsKey(rows)
    requires i < |records| && HasBothTimes(records[i])
    ensures Stored(p, Override(map[], rows), records[i])
  {
    hide Override, StopTimeOf, HasBothTimes, Yields, Collect, RepeatsKey;
    CollectIsExact(records, StopTimeParser(p));
    var parsed := StopTimeParser(p)(records[i]);
    KeptIffBothTimes(p, records[i]);
    YieldsAt(records, StopTimeParser(p), i);
    OverrideOfDistinct(rows, parsed.value.value);
  }

  lemma StopTimeFromFeed(p: Parsers, records: seq<Record>, rows: seq<Row<TripStop, StopTime>>, k: TripStop)
    requires Collect(records, StopTimeParser(p)) == Some(rows) && k in Override(map[], rows)
    ensures Yields(records, StopTimeParser(p), (k, Override(map[], rows)[k]))
  {
    hide Override, StopTimeOf, Yields, Collect;
    CollectIsExact(records, StopTimeParser(p));
    OverrideOrigin(map[], rows, k);
  }

  lemma LoadableStopTimes(db: Db, r: Rows)
    requires Loadable(db, r)
    ensures !RepeatsKey(r.stopTimes)
  {
  }

  lemma YieldsAt<T>(records: seq<Record>, parse: Record -> Parsed<T>, i: nat)
    requires i < |records| && parse(records[i]).Some? && parse(records[i]).value.Some?
    ensures Yields(records, parse, parse(records[i]).value.value)
  {
  }

  lemma OverrideOfDistinct<K, V>(rows: seq<Row<K, V>>, row: Row<K, V>)
    requires !RepeatsKey(rows) && row in rows
    ensures row.0 in Override(map[], rows) && Override(map[], rows)[row.0] == row.1
  {
    var j :| 0 <= j < |rows| && rows[j] == row;
    OverrideLast(map[], rows, j);
  }

  lemma {:induction false} OverrideCounts<K, V>(rows: seq<Row<K, V>>)
    requires !RepeatsKey(rows)
    ensures |Override(map[], rows)| == |rows|
    decreases |rows|
  {
    if rows != [] {
      var n := |rows| - 1;
      var before := Override(map[], rows[..n]);
      RepeatsKeySplit(rows, n);
      OverrideCounts(rows[..n]);
      OverrideOrigin(map[], rows[..n], rows[n].0);
      assert !Mentions(rows[..n], rows[n].0);
      assert before[rows[n].0 := rows[n].1].Keys == before.Keys + {rows[n].0};
    }
  }

  /** Loading the same feed again is a no-op. */
  lemma ReloadIsNoOp(p: Parsers, db: Db, frames: Frames)
    requires Loaded(p, db, frames).Ok?
    ensures Loaded(p, Loaded(p, db, frames).value, frames) == Loaded(p, db, frames)
  {
    hide Loaded, RowsOf, Override, RepeatsWithin, RepeatsKey;
    LoadsIff(p, db, frames);
    var r := RowsOf(p, frames).value;
    var d := Overridden(db, r);
    LoadsIff(p, d, frames);
    ResolvesAfter(db.agencies, r.agencies);
    ResolvesAfter(db.routes, r.routes);
    ResolvesAfter(db.trips, r.trips);
    ResolvesAfter(db.stops, r.stops);
    OverrideTwice(db.agencies, r.agencies);
    OverrideTwice(db.routes, r.routes);
    OverrideTwice(db.stops, r.stops);
    OverrideTwice(db.trips, r.trips);
    OverrideTwice(db.calendar, r.calendar);
    OverrideTwice(db.exceptions, r.exceptions);
  }

  // ---------------------------------------------------------------- feeds that cannot load

  /** A route without an agency_id is filed under "default", so it needs such an agency. */
  lemma BlankAgencyNeedsDefault(p: Parsers, db: Db, frames: Frames, i: nat)
    requires REQUIRED_FILES <= frames.Keys && i < |frames["routes.txt"]|
    requires Cell(frames["routes.txt"][i], "agency_id") == "" && "default" !in db.agencies
    requires forall a :: a in frames["agency.txt"] ==> Cell(a, "agency_id") != "" && Cell(a, "agency_id") != "default"
    ensures Loaded(p, db, frames).Err?
  {
    hide Loaded, Override, RepeatsWithin, RepeatsKey, Collect, Yields, RowsOf;
    LoadsIff(p, db, frames);
    if Loaded(p, db, frames).Ok? {
      RowsOfFeed(p, frames);
      var r, route := RowsOf(p, frames).value, frames["routes.txt"][i];
      CollectIsExact(frames["routes.txt"], RouteParser(p));
      assert RouteParser(p)(route).Some? && RouteParser(p)(route).value.Some?;
      YieldsAt(frames["routes.txt"], RouteParser(p), i);
      var row := RouteOf(p, route).value.value;
      assert row in r.routes && row.1.agency == "default";
      assert Mentions(r.agencies, "default");
      var j :| 0 <= j < |r.agencies| && r.agencies[j].0 == "default";
      CollectIsExact(frames["agency.txt"], AgencyOf);
      assert r.agencies[j] in r.agencies;
      AgencyYields(frames["agency.txt"], r.agencies[j]);
    }
  }

  lemma AgencyYields(records: seq<Record>, row: Row<string, Agency>)
    requires Yields(records, AgencyOf, row)
    ensures exists a :: a in records && CellOr(a, "agency_id", "default") == row.0
  {
    var i :| 0 <= i < |records| && AgencyOf(records[i]) == Some(Some(row));
    assert records[i] in records;
  }

  lemma StopYields(p: Parsers, records: seq<Record>, row: Row<string, Stop>)
    requires Yields(records, StopParser(p), row)
    ensures exists r :: r in records && Cell(r, "stop_id") == row.0 && Cell(r, "stop_lat") != "" && Cell(r, "stop_lon") != ""
  {
    var i :| 0 <= i < |records| && StopParser(p)(records[i]) == Some(Some(row));
    assert StopOf(p, records[i]) == Some(Some(row));
    assert records[i] in records;
  }

  /** A stop without coordinates is dropped, and a stop time at it then has nowhere to point. */
  lemma DroppedStopFailsTheLoad(p: Parsers, db: Db, frames: Frames, i: nat)
    requires REQUIRED_FILES <= frames.Keys && i < |frames["stop_times.txt"]| && HasBothTimes(frames["stop_times.txt"][i])
    requires var stop := Cell(frames["stop_times.txt"][i], "stop_id");
             stop !in db.stops &&
             forall r :: r in frames["stops.txt"] && Cell(r, "stop_id") == stop ==>
               Cell(r, "stop_lat") == "" || Cell(r, "stop_lon") == ""
    ensures Loaded(p, db, frames).Err?
  {
    hide Loaded, Override, RepeatsWithin, RepeatsKey, Collect, Yields, StopOf, Hms, RowsOf;
    LoadsIff(p, db, frames);
    if Loaded(p, db, frames).Ok? {
      RowsOfFeed(p, frames);
      var r, record := RowsOf(p, frames).value, frames["stop_times.txt"][i];
      CollectIsExact(frames["stop_times.txt"], StopTimeParser(p));
      assert StopTimeParser(p)(record).Some?;
      KeptIffBothTimes(p, record);
      YieldsAt(frames["stop_times.txt"], StopTimeParser(p), i);
      var row := StopTimeOf(p, record).value.value;
      assert row in r.stopTimes && row.1.stop == Cell(record, "stop_id");
      assert Mentions(r.stops, row.1.stop);
      var j :| 0 <= j < |r.stops| && r.stops[j].0 == row.1.stop;
      CollectIsExact(frames["stops.txt"], StopParser(p));
      assert r.stops[j] in r.stops;
      StopYields(p, frames["stops.txt"], r.stops[j]);
    }
  }

  lemma {:induction false} CollectKeepsOrder<T(!new)>(records: seq<Record>, parse: Record -> Parsed<T>, i: nat, j: nat,
                                                      x: T, y: T) returns (a: nat, b: nat)
    requires Collect(records, parse).Some? && i < j < |records|
    requires parse(records[i]) == Some(Some(x)) && parse(records[j]) == Some(Some(y))
    ensures a < b < |Collect(records, parse).value|
    ensures Collect(records, parse).value[a] == x && Collect(records, parse).value[b] == y
    decreases |records|
  {
    var n := |records| - 1;
    var before := Collect(records[..n], parse).value;
    if j < n {
      a, b := CollectKeepsOrder(records[..n], parse, i, j, x, y);
    } else {
      assert records[..n][i] == records[i];
      YieldsAt(records[..n], parse, i);
      CollectIsExact(records[..n], parse);
      a :| 0 <= a < |before| && before[a] == x;
      b := |before|;
    }
  }

  /** Wiping the table does not rule conflicts out: two rows for the same trip and sequence do not load. */
  lemma RepeatedStopTimeFailsTheLoad(p: Parsers, db: Db, frames: Frames, i: nat, j: nat)
    requires REQUIRED_FILES <= frames.Keys && i < j < |frames["stop_times.txt"]|
    requires var a, b := frames["stop_times.txt"][i], frames["stop_times.txt"][j];
             && HasBothTimes(a) && HasBothTimes(b) && Cell(a, "trip_id") == Cell(b, "trip_id")
             && RequiredInt(p, a, "stop_sequence") == RequiredInt(p, b, "stop_sequence")
    ensures Loaded(p, db, frames).Err?
  {
    hide Loaded, Override, RepeatsWithin, RepeatsKey, Collect, Yields, Hms, RowsOf;
    LoadsIff(p, db, frames);
    if Loaded(p, db, frames).Ok? {
      RowsOfFeed(p, frames);
      var records, rows := frames["stop_times.txt"], RowsOf(p, frames).value.stopTimes;
      CollectIsExact(records, StopTimeParser(p));
      assert StopTimeParser(p)(records[i]).Some? && StopTimeParser(p)(records[j]).Some?;
      KeptIffBothTimes(p, records[i]);
      KeptIffBothTimes(p, records[j]);
      var x, y := StopTimeOf(p, records[i]).value.value, StopTimeOf(p, records[j]).value.value;
      assert x.0 == y.0;
      var a, b := CollectKeepsOrder(records, StopTimeParser(p), i, j, x, y);
      RepeatsAt(rows, a, b);
    }
  }

  lemma RepeatsAt<K, V>(rows: seq<Row<K, V>>, a: nat, b: nat)
    requires a < b < |rows| && rows[a].0 == rows[b].0
    ensures RepeatsKey(rows)
  {
  }
}
