/** ingest_static_feed on the tables in place. */
module StaticStore {
  import opened Basics
  import opened ChunkedUpsert
  import opened StaticFeed
  import opened StaticLoad
  import opened StaticFromCells

  class Tables {
    var agencies: map<string, Agency>
    var routes: map<string, Route>
    var stops: map<string, Stop>
    var trips: map<string, Trip>
    var calendar: map<string, Service>
    var exceptions: map<ServiceDay, int>
    var stopTimes: map<TripStop, StopTime>

    constructor ()
      ensures Contents() == Db(map[], map[], map[], map[], map[], map[], map[])
    {
      agencies, routes, stops, trips, calendar, exceptions, stopTimes := map[], map[], map[], map[], map[], map[], map[];
    }

    function Contents(): Db
      reads this
    {
      Db(agencies, routes, stops, trips, calendar, exceptions, stopTimes)
    }

    method Restore(db: Db)
      modifies this
      ensures Contents() == db
    {
      agencies, routes, stops, trips := db.agencies, db.routes, db.stops, db.trips;
      calendar, exceptions, stopTimes := db.calendar, db.exceptions, db.stopTimes;
    }

    /** The loop over stops.txt that leaves out stops without coordinates. */
    static method ReadStops(p: Parsers, records: seq<Record>) returns (rows: Option<seq<Row<string, Stop>>>)
      ensures rows == Collect(records, StopParser(p))
      ensures rows.Some? <==> Readable(records, StopReader(p), StopSkipper(p))
      ensures rows.Some? ==> forall row :: row in rows.value <==> exists i :: ReadAt(records, StopReader(p), i, row)
    {
      StopParses(p);
      CollectReadable(records, StopParser(p), StopReader(p), StopSkipper(p));
      if Collect(records, StopParser(p)).Some? {
        CollectMembers(records, StopParser(p), StopReader(p));
      }
      hide Readable, StopReader, ReadAt, ParsesAs, StopSkipper;
      var kept: seq<Row<string, Stop>> := [];
      for i := 0 to |records|
        invariant Collect(records[..i], StopParser(p)) == Some(kept)
      {
        assert records[..i + 1][..i] == records[..i];
        var row := StopOf(p, records[i]);
        if row.None? {
          CollectFailsEarly(records, StopParser(p), i);
          return None;
        }
        if row.value.None? {
          continue;
        }
        kept := kept + [row.value.value];
      }
      assert records[..|records|] == records;
      return Some(kept);
    }

    /** The loop over stop_times.txt that leaves out rows without both times. */
    static method ReadStopTimes(p: Parsers, records: seq<Record>) returns (rows: Option<seq<Row<TripStop, StopTime>>>)
      ensures rows == Collect(records, StopTimeParser(p))
      ensures rows.Some? <==> Readable(records, StopTimeReader(p), StopTimeSkipper())
      ensures rows.Some? ==> forall row :: row in rows.value <==> exists i :: ReadAt(records, StopTimeReader(p), i, row)
    {
      StopTimeParses(p);
      CollectReadable(records, StopTimeParser(p), StopTimeReader(p), StopTimeSkipper());
      if Collect(records, StopTimeParser(p)).Some? {
        CollectMembers(records, StopTimeParser(p), StopTimeReader(p));
      }
      hide Readable, StopTimeReader, ReadAt, ParsesAs, StopTimeSkipper;
      var kept: seq<Row<TripStop, StopTime>> := [];
      for i := 0 to |records|
        invariant Collect(records[..i], StopTimeParser(p)) == Some(kept)
      {
        assert records[..i + 1][..i] == records[..i];
        if !HasBothTimes(records[i]) {
          continue;
        }
        var row := StopTimeOf(p, records[i]);
        if row.None? {
          CollectFailsEarly(records, StopTimeParser(p), i);
          return None;
        }
        KeptIffBothTimes(p, records[i]);
        kept := kept + [row.value.value];
      }
      assert records[..|records|] == records;
      return Some(kept);
    }

    /** The loop that fills the wiped table. */
    static method InsertChunks(rows: seq<Row<TripStop, StopTime>>, batch: nat, refers: Row<TripStop, StopTime> -> bool)
      returns (r: Result<map<TripStop, StopTime>, Failure>)
      requires 0 < batch
      ensures r == InsertedInChunks(map[], rows, batch, refers)
      ensures r.Ok? <==> !RepeatsKey(rows) && AllRefer(rows, refers)
    {
      hide Override, Inserted, RepeatsKey, AllRefer;
      InsertIsOverride(map[], rows, batch, refers);
      var current: map<TripStop, StopTime>, i := map[], 0;
      while i < |rows|
        invariant 0 <= i <= |rows|
        invariant InsertedInChunks(current, rows[i..], batch, refers) == InsertedInChunks(map[], rows, batch, refers)
        decreases |rows| - i
      {
        var n := FirstChunk(|rows| - i, batch);
        var chunk := rows[i..i + n];
        assert rows[i..][..n] == chunk && rows[i..][n..] == rows[i + n..];
        var step := Inserted(current, chunk, refers);
        if step.Err? {
          return Err(step.error);
        }
        current, i := step.value, i + n;
      }
      return Ok(current);
    }

    /** One upserted file. */
    static method UpsertFile<K(==), V>(table: map<K, V>, rows: Option<seq<Row<K, V>>>, refers: Row<K, V> -> bool)
      returns (r: Result<map<K, V>, Failure>)
      ensures r == Merged(table, rows, refers)
    {
      hide Upserted, RepeatsWithin, AllRefer, Override;
      if rows.None? {
        return Err(BadCell);
      }
      r := Upsert(table, rows.value, BATCH, refers);
    }

    static method UpsertStops(p: Parsers, table: map<string, Stop>, records: seq<Record>)
      returns (r: Result<map<string, Stop>, Failure>)
      ensures r == Merged(table, Collect(records, StopParser(p)), Anything())
    {
      hide Merged, Readable, ReadAt;
      var rows := ReadStops(p, records);
      r := UpsertFile(table, rows, Anything());
    }

    /** What fills stop_times after the wipe. */
    static method FillStopTimes(p: Parsers, records: seq<Record>, refers: Row<TripStop, StopTime> -> bool)
      returns (r: Result<map<TripStop, StopTime>, Failure>)
      ensures r == Replaced(Collect(records, StopTimeParser(p)), refers)
    {
      hide InsertedInChunks, RepeatsKey, AllRefer, Collect, Readable, ReadAt;
      var rows := ReadStopTimes(p, records);
      if rows.None? {
        return Err(BadCell);
      }
      r := InsertChunks(rows.value, STOP_TIMES_BATCH, refers);
    }

    /** Tables in foreign-key order; stops where the first step fails. */
    method IngestFrames(p: Parsers, frames: Frames) returns (r: Result<(), Failure>)
      requires REQUIRED_FILES <= frames.Keys
      modifies this
      ensures var spec := Loaded(p, old(Contents()), frames);
              if spec.Ok? then r.Ok? && Contents() == spec.value else r == Err(spec.error)
    {
      hide Merged, Replaced, Collect, KnowsAgency, KnowsRoute, KnowsTripAndStop,
        Anything, RouteParser, StopParser, TripParser, ServiceParser, ExceptionParser, StopTimeParser;
      agencies :- UpsertFile(agencies, Collect(frames["agency.txt"], AgencyOf), Anything());
      routes :- UpsertFile(routes, Collect(frames["routes.txt"], RouteParser(p)), KnowsAgency(agencies));
      stops :- UpsertStops(p, stops, frames["stops.txt"]);
      trips :- UpsertFile(trips, Collect(frames["trips.txt"], TripParser(p)), KnowsRoute(routes));
      calendar :- UpsertFile(calendar, Collect(frames["calendar.txt"], ServiceParser(p)), Anything());
      NothingToUpsert(exceptions);
      if "calendar_dates.txt" in frames {
        exceptions :- UpsertFile(exceptions, Collect(frames["calendar_dates.txt"], ExceptionParser(p)), Anything());
      }
      stopTimes := map[];
      stopTimes :- FillStopTimes(p, frames["stop_times.txt"], KnowsTripAndStop(trips, stops));
      return Ok(());
    }

    /** Either the whole feed is in and every foreign key still resolves, or nothing has changed. */
    method IngestStaticFeed(p: Parsers, frames: Frames) returns (r: Result<(), Failure>)
      modifies this
      ensures Contents() == Committed(p, old(Contents()), frames)
      ensures r.Ok? <==> RowsOf(p, frames).Some? && Loadable(old(Contents()), RowsOf(p, frames).value)
      ensures r.Err? ==> Contents() == old(Contents())
      ensures r.Ok? ==> FeedReadable(p, frames) && TablesFilled(p, old(Contents()), frames, Contents())
      ensures old(Intact(Contents())) ==> Intact(Contents())
    {
      hide Loadable, RowsOf, Overridden, Intact, FeedReadable, TablesFilled, Loaded;
      ghost var before := Contents();
      var begin := Contents();
      LoadsIff(p, begin, frames);
      if Loaded(p, begin, frames).Ok? {
        LoadFollowsCells(p, begin, frames);
      }
      if Intact(begin) {
        LoadKeepsIntact(p, begin, frames);
      }
      if !(REQUIRED_FILES <= frames.Keys) {
        MissingFileFails(p, begin, frames);
        return Err(MissingFile);
      }
      r := IngestFrames(p, frames);
      if r.Err? {
        Restore(begin);
      }
    }
  }

  lemma NothingToUpsert(exceptions: map<ServiceDay, int>)
    ensures Merged(exceptions, Some([]), Anything()) == Ok(exceptions)
  {
  }

  lemma MissingFileFails(p: Parsers, db: Db, frames: Frames)
    requires !(REQUIRED_FILES <= frames.Keys)
    ensures Loaded(p, db, frames) == Err(MissingFile)
  {
  }
}
