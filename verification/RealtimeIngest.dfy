/** ingest_trip_updates and prune_old_realtime over the realtime tables, starting from decoded
    feed messages. */
module RealtimeIngest {
  import opened Basics
  import opened Clock
  import opened Observations

  // ---------------------------------------------------------------- messages and tables

  /** StopTimeEvent: an unset delay reads as 0. */
  datatype StopEvent = StopEvent(delay: int, time: Option<nat>)

  datatype StopMessage = StopMessage(stopId: string, sequence: Option<int>,
                                     arrival: Option<StopEvent>, departure: Option<StopEvent>)

  /** trip.start_date: empty, not a %Y%m%d date, or a day. */
  datatype StartDate = Unset | Malformed | On(day: int)

  /** `wallClock` is what datetime.now would read when the entity is processed. */
  datatype TripMessage = TripMessage(tripId: string, routeId: string, vehicleId: string,
                                     startDate: StartDate, timestamp: nat, wallClock: int,
                                     stops: seq<StopMessage>)

  datatype Entity = Other | TripEntity(trip: TripMessage)

  datatype TripUpdate = TripUpdate(id: nat, trip: string, route: Option<string>,
                                   vehicle: Option<string>, recordedAt: int, startDate: Option<int>)

  datatype StopTimeUpdate = StopTimeUpdate(parent: nat, stop: Option<string>, sequence: Option<int>,
                                           arrivalDelay: Option<int>, arrivalTime: Option<int>,
                                           departureDelay: Option<int>, departureTime: Option<int>)

  datatype Db = Db(tripUpdates: seq<TripUpdate>, stopTimeUpdates: seq<StopTimeUpdate>,
                   vehiclePositions: seq<int>, observations: Table,
                   nextTrip: nat, nextObservation: nat)

  datatype Failure = BadStartDate | RowTouchedTwice

  const EMPTY := Db([], [], [], [], 0, 0)

  // ---------------------------------------------------------------- one entity

  function OrNone(s: string): Option<string> {
    if s == "" then None else Some(s)
  }

  /** _epoch_to_dt: 0 counts as missing. */
  function EpochToDt(epoch: nat): Option<int> {
    if epoch == 0 then None else Some(epoch)
  }

  function RecordedAt(m: TripMessage): int {
    if EpochToDt(m.timestamp).Some? then m.timestamp else m.wallClock
  }

  function DelayOf(e: Option<StopEvent>): Option<int> {
    if e.Some? then Some(e.value.delay) else None
  }

  function TimeOf(e: Option<StopEvent>): Option<int> {
    if e.Some? && e.value.time.Some? then EpochToDt(e.value.time.value) else None
  }

  /** Arrival delay if there is an arrival, else departure delay. */
  function ObservedDelay(s: StopMessage): Option<int> {
    if DelayOf(s.arrival).Some? then DelayOf(s.arrival) else DelayOf(s.departure)
  }

  predicate Qualifies(m: TripMessage, s: StopMessage) {
    ObservedDelay(s).Some? && s.stopId != "" && m.routeId != "" && m.startDate.On?
  }

  function TripRow(m: TripMessage, id: nat): TripUpdate
    requires !m.startDate.Malformed?
  {
    TripUpdate(id, m.tripId, OrNone(m.routeId), OrNone(m.vehicleId), RecordedAt(m),
               if m.startDate.On? then Some(m.startDate.day) else None)
  }

  function StopRow(s: StopMessage, parent: nat): StopTimeUpdate {
    StopTimeUpdate(parent, OrNone(s.stopId), s.sequence, DelayOf(s.arrival), TimeOf(s.arrival),
                   DelayOf(s.departure), TimeOf(s.departure))
  }

  function StopRows(stops: seq<StopMessage>, parent: nat): (r: seq<StopTimeUpdate>)
    ensures |r| == |stops|
    ensures forall i :: 0 <= i < |stops| ==> r[i] == StopRow(stops[i], parent)
  {
    seq(|stops|, i requires 0 <= i < |stops| => StopRow(stops[i], parent))
  }

  function ObservationRow(m: TripMessage, s: StopMessage): Proposal
    requires Qualifies(m, s)
  {
    var at := RecordedAt(m);
    Proposal(m.routeId, m.tripId, s.stopId, at, m.startDate.day, HourOf(at), WeekdayOf(at),
             ObservedDelay(s).value)
  }

  /** The observation rows of the first stops of a message, in order. */
  function ObservationRows(m: TripMessage, stops: seq<StopMessage>): seq<Proposal>
    decreases |stops|
  {
    if stops == [] then []
    else
      var n := |stops| - 1;
      ObservationRows(m, stops[..n]) + (if Qualifies(m, stops[n]) then [ObservationRow(m, stops[n])] else [])
  }

  function RowsOf(m: TripMessage): seq<Proposal> {
    ObservationRows(m, m.stops)
  }

  lemma {:induction false} RowsAreWellTimed(m: TripMessage, stops: seq<StopMessage>)
    ensures ProposalsWellTimed(ObservationRows(m, stops))
    decreases |stops|
  {
    if stops != [] {
      RowsAreWellTimed(m, stops[..|stops| - 1]);
    }
  }

  function AfterTrip(db: Db, m: TripMessage): Result<Db, Failure> {
    if m.startDate.Malformed? then Err(BadStartDate)
    else
      var rows := RowsOf(m);
      if TouchesTwice(rows) then Err(RowTouchedTwice)
      else
        Ok(Db(db.tripUpdates + [TripRow(m, db.nextTrip)],
              db.stopTimeUpdates + StopRows(m.stops, db.nextTrip),
              db.vehiclePositions,
              UpsertRows(db.observations, rows, db.nextObservation),
              db.nextTrip + 1, db.nextObservation + |rows|))
  }

  // ---------------------------------------------------------------- one feed

  function AfterEntities(db: Db, feed: seq<Entity>): Result<Db, Failure>
    decreases |feed|
  {
    if feed == [] then Ok(db)
    else
      var n := |feed| - 1;
      var before := AfterEntities(db, feed[..n]);
      if before.Err? || feed[n].Other? then before
      else AfterTrip(before.value, feed[n].trip)
  }

  function CountTrips(feed: seq<Entity>): nat
    decreases |feed|
  {
    if feed == [] then 0
    else CountTrips(feed[..|feed| - 1]) + (if feed[|feed| - 1].TripEntity? then 1 else 0)
  }

  lemma {:induction false} FailureSticks(db: Db, feed: seq<Entity>, n: nat)
    requires n <= |feed| && AfterEntities(db, feed[..n]).Err?
    ensures AfterEntities(db, feed) == AfterEntities(db, feed[..n])
    decreases |feed|
  {
    if n == |feed| {
      assert feed[..n] == feed;
    } else {
      var shorter := feed[..|feed| - 1];
      assert shorter[..n] == feed[..n];
      FailureSticks(db, shorter, n);
    }
  }

  /** A feed commits as a whole or leaves every table as it was. */
  function Committed(db: Db, feed: seq<Entity>): Db {
    var r := AfterEntities(db, feed);
    if r.Ok? then r.value else db
  }

  /** What a feed must look like to be committed; the tables have no say in it. */
  predicate Acceptable(feed: seq<Entity>) {
    forall i :: 0 <= i < |feed| && feed[i].TripEntity? ==>
      !feed[i].trip.startDate.Malformed? && !TouchesTwice(RowsOf(feed[i].trip))
  }

  lemma {:induction false} CommitsIffAcceptable(db: Db, feed: seq<Entity>)
    ensures AfterEntities(db, feed).Ok? <==> Acceptable(feed)
    decreases |feed|
  {
    if feed != [] {
      var n := |feed| - 1;
      CommitsIffAcceptable(db, feed[..n]);
      assert Acceptable(feed) ==> Acceptable(feed[..n]);
    }
  }

  /** Within one trip the key is the stop alone, so a statement is refused exactly when one
      qualifying stop occurs twice in the message. */
  lemma TouchesTwiceIffStopRepeats(m: TripMessage)
    ensures TouchesTwice(RowsOf(m)) <==>
            exists i, j :: 0 <= i < j < |m.stops| && m.stops[i].stopId == m.stops[j].stopId
                           && Qualifies(m, m.stops[i]) && Qualifies(m, m.stops[j])
  {
    if TouchesTwice(RowsOf(m)) {
      var a, b :| 0 <= a < b < |RowsOf(m)| && ProposalKey(RowsOf(m)[a]) == ProposalKey(RowsOf(m)[b]);
      var i := RowSource(m, m.stops, a);
      var j := RowSource(m, m.stops, b);
      RowSourceMonotone(m, m.stops, a, b);
    }
    forall i, j | 0 <= i < j < |m.stops| && m.stops[i].stopId == m.stops[j].stopId
                  && Qualifies(m, m.stops[i]) && Qualifies(m, m.stops[j])
      ensures TouchesTwice(RowsOf(m))
    {
      RepeatedStopTouchesTwice(m, i, j);
    }
  }

  lemma RepeatedStopTouchesTwice(m: TripMessage, i: nat, j: nat)
    requires i < j < |m.stops| && m.stops[i].stopId == m.stops[j].stopId
    requires Qualifies(m, m.stops[i]) && Qualifies(m, m.stops[j])
    ensures TouchesTwice(RowsOf(m))
  {
    hide ObservationRows, Qualifies, RecordedAt;
    RowPositions(m, m.stops);
    var a, b := |ObservationRows(m, m.stops[..i])|, |ObservationRows(m, m.stops[..j])|;
    RowsGrow(m, m.stops, i, j);
    assert ProposalKey(RowsOf(m)[a]) == ProposalKey(RowsOf(m)[b]);
  }

  lemma RowsGrow(m: TripMessage, stops: seq<StopMessage>, i: nat, j: nat)
    requires i < j <= |stops| && Qualifies(m, stops[i])
    ensures |ObservationRows(m, stops[..i])| < |ObservationRows(m, stops[..j])|
  {
    ObservationRowsPrefix(m, stops[..j], i + 1);
    assert stops[..j][..i + 1] == stops[..i + 1];
    assert stops[..i + 1][..i] == stops[..i];
  }

  lemma {:induction false} ObservationRowsPrefix(m: TripMessage, stops: seq<StopMessage>, n: nat)
    requires n <= |stops|
    ensures ObservationRows(m, stops[..n]) <= ObservationRows(m, stops)
    decreases |stops|
  {
    if n == |stops| {
      assert stops[..n] == stops;
    } else {
      var shorter := stops[..|stops| - 1];
      assert shorter[..n] == stops[..n];
      ObservationRowsPrefix(m, shorter, n);
    }
  }

  /** A qualifying stop's row sits right behind the rows of the stops before it. */
  lemma RowPositions(m: TripMessage, stops: seq<StopMessage>)
    ensures forall i :: 0 <= i < |stops| && Qualifies(m, stops[i]) ==>
              |ObservationRows(m, stops[..i])| < |ObservationRows(m, stops)| &&
              ObservationRows(m, stops)[|ObservationRows(m, stops[..i])|] == ObservationRow(m, stops[i])
  {
    forall i | 0 <= i < |stops| && Qualifies(m, stops[i])
      ensures |ObservationRows(m, stops[..i])| < |ObservationRows(m, stops)| &&
              ObservationRows(m, stops)[|ObservationRows(m, stops[..i])|] == ObservationRow(m, stops[i])
    {
      assert stops[..i + 1][..i] == stops[..i];
      ObservationRowsPrefix(m, stops, i + 1);
    }
  }

  /** The stop a row came from. */
  ghost function RowSource(m: TripMessage, stops: seq<StopMessage>, a: nat): (i: nat)
    requires a < |ObservationRows(m, stops)|
    ensures i < |stops| && Qualifies(m, stops[i])
    ensures ObservationRows(m, stops)[a] == ObservationRow(m, stops[i])
    decreases |stops|
  {
    var n := |stops| - 1;
    if a < |ObservationRows(m, stops[..n])| then RowSource(m, stops[..n], a) else n
  }

  lemma {:induction false} RowSourceMonotone(m: TripMessage, stops: seq<StopMessage>, a: nat, b: nat)
    requires a < b < |ObservationRows(m, stops)|
    ensures RowSource(m, stops, a) < RowSource(m, stops, b)
    decreases |stops|
  {
    var n := |stops| - 1;
    if b < |ObservationRows(m, stops[..n])| {
      RowSourceMonotone(m, stops[..n], a, b);
    }
  }

  // ---------------------------------------------------------------- any sequence of feeds

  /** The qualifying updates of a feed, in processing order. */
  function LogOf(feed: seq<Entity>): seq<Proposal>
    decreases |feed|
  {
    if feed == [] then []
    else
      var n := |feed| - 1;
      LogOf(feed[..n]) + (if feed[n].TripEntity? then RowsOf(feed[n].trip) else [])
  }

  function IngestAll(db: Db, feeds: seq<seq<Entity>>): Db
    decreases |feeds|
  {
    if feeds == [] then db
    else Committed(IngestAll(db, feeds[..|feeds| - 1]), feeds[|feeds| - 1])
  }

  /** The qualifying updates of all feeds that committed. */
  function CommittedLog(feeds: seq<seq<Entity>>): seq<Proposal>
    decreases |feeds|
  {
    if feeds == [] then []
    else
      var n := |feeds| - 1;
      CommittedLog(feeds[..n]) + (if Acceptable(feeds[n]) then LogOf(feeds[n]) else [])
  }

  /** db's observations are what replaying `log` onto `start` gives. */
  ghost predicate Replays(db: Db, start: Db, log: seq<Proposal>) {
    && db.observations == UpsertRows(start.observations, log, start.nextObservation)
    && db.nextObservation == start.nextObservation + |log|
  }

  lemma TripReplays(db: Db, start: Db, log: seq<Proposal>, m: TripMessage)
    requires Replays(db, start, log) && AfterTrip(db, m).Ok?
    ensures Replays(AfterTrip(db, m).value, start, log + RowsOf(m))
  {
    UpsertRowsAppend(start.observations, log, RowsOf(m), start.nextObservation);
  }

  lemma {:induction false} FeedReplays(db: Db, feed: seq<Entity>)
    requires AfterEntities(db, feed).Ok?
    ensures Replays(AfterEntities(db, feed).value, db, LogOf(feed))
    decreases |feed|
  {
    if feed != [] {
      var n := |feed| - 1;
      FeedReplays(db, feed[..n]);
      if feed[n].TripEntity? {
        TripReplays(AfterEntities(db, feed[..n]).value, db, LogOf(feed[..n]), feed[n].trip);
      } else {
        assert LogOf(feed) == LogOf(feed[..n]);
      }
    }
  }

  lemma CommittedReplays(db: Db, start: Db, log: seq<Proposal>, feed: seq<Entity>)
    requires Replays(db, start, log)
    ensures Replays(Committed(db, feed), start, log + (if Acceptable(feed) then LogOf(feed) else []))
  {
    hide Acceptable, LogOf, UpsertRows, AfterEntities;
    CommitsIffAcceptable(db, feed);
    if Acceptable(feed) {
      FeedReplays(db, feed);
      UpsertRowsAppend(start.observations, log, LogOf(feed), start.nextObservation);
    } else {
      assert log + [] == log;
    }
  }

  /** The observations after any sequence of feeds are the replayed log of the committed ones. */
  lemma {:induction false} FeedsReplayLog(feeds: seq<seq<Entity>>)
    ensures Replays(IngestAll(EMPTY, feeds), EMPTY, CommittedLog(feeds))
    decreases |feeds|
  {
    hide Replays, Committed, Acceptable, LogOf;
    if feeds == [] {
      NothingReplays(EMPTY);
    } else {
      var n := |feeds| - 1;
      FeedsReplayLog(feeds[..n]);
      CommittedReplays(IngestAll(EMPTY, feeds[..n]), EMPTY, CommittedLog(feeds[..n]), feeds[n]);
    }
  }

  lemma NothingReplays(db: Db)
    ensures Replays(db, db, [])
  {
  }

  lemma {:induction false} LogIsWellTimed(feed: seq<Entity>)
    ensures ProposalsWellTimed(LogOf(feed))
    decreases |feed|
  {
    if feed != [] {
      var n := |feed| - 1;
      LogIsWellTimed(feed[..n]);
      if feed[n].TripEntity? {
        RowsAreWellTimed(feed[n].trip, feed[n].trip.stops);
      }
    }
  }

  lemma {:induction false} CommittedLogIsWellTimed(feeds: seq<seq<Entity>>)
    ensures ProposalsWellTimed(CommittedLog(feeds))
    decreases |feeds|
  {
    if feeds != [] {
      CommittedLogIsWellTimed(feeds[..|feeds| - 1]);
      LogIsWellTimed(feeds[|feeds| - 1]);
    }
  }

  /** After any sequence of feeds: one row per (trip, stop, service date) that was ever committed,
      its id and route from the first qualifying update with that key, its delay and times from the
      last, and hour and day of week those of its observed_at. */
  lemma FirstPlaceLastValues(feeds: seq<seq<Entity>>)
    ensures Represents(IngestAll(EMPTY, feeds).observations, CommittedLog(feeds))
    ensures WellTimed(IngestAll(EMPTY, feeds).observations)
    ensures IdsBelow(IngestAll(EMPTY, feeds).observations, IngestAll(EMPTY, feeds).nextObservation)
  {
    FeedsReplayLog(feeds);
    UpsertRowsRepresent(CommittedLog(feeds));
    CommittedLogIsWellTimed(feeds);
    UpsertRowsKeep([], CommittedLog(feeds), 0);
  }

  // ---------------------------------------------------------------- pruning

  function TripsFrom(trips: seq<TripUpdate>, cutoff: int): (r: seq<TripUpdate>)
    ensures |r| <= |trips|
  {
    if trips == [] then []
    else (if cutoff <= trips[0].recordedAt then [trips[0]] else []) + TripsFrom(trips[1..], cutoff)
  }

  /** ON DELETE CASCADE: rows whose parent is among the deleted go with it. */
  function WithoutChildrenOf(stops: seq<StopTimeUpdate>, gone: set<nat>): seq<StopTimeUpdate>
  {
    if stops == [] then []
    else (if stops[0].parent in gone then [] else [stops[0]]) + WithoutChildrenOf(stops[1..], gone)
  }

  function PositionsFrom(positions: seq<int>, cutoff: int): (r: seq<int>)
    ensures |r| <= |positions|
  {
    if positions == [] then []
    else (if cutoff <= positions[0] then [positions[0]] else []) + PositionsFrom(positions[1..], cutoff)
  }

  function Expired(trips: seq<TripUpdate>, cutoff: int): set<nat> {
    set t | t in trips && t.recordedAt < cutoff :: t.id
  }

  function Pruned(db: Db, cutoff: int): Db {
    db.(tripUpdates := TripsFrom(db.tripUpdates, cutoff),
        stopTimeUpdates := WithoutChildrenOf(db.stopTimeUpdates, Expired(db.tripUpdates, cutoff)),
        vehiclePositions := PositionsFrom(db.vehiclePositions, cutoff))
  }

  /** Trip ids are in drawing order, and every stop_time_update names a trip update. */
  ghost predicate Linked(db: Db) {
    && (forall i, j :: 0 <= i < j < |db.tripUpdates| ==> db.tripUpdates[i].id < db.tripUpdates[j].id)
    && (forall t :: t in db.tripUpdates ==> t.id < db.nextTrip)
    && (forall s :: s in db.stopTimeUpdates ==> exists t :: t in db.tripUpdates && t.id == s.parent)
  }

  lemma {:induction false} TripsFromMembers(trips: seq<TripUpdate>, cutoff: int)
    ensures forall t :: t in TripsFrom(trips, cutoff) <==> t in trips && cutoff <= t.recordedAt
  {
    if trips != [] {
      TripsFromMembers(trips[1..], cutoff);
    }
  }

  lemma {:induction false} WithoutChildrenMembers(stops: seq<StopTimeUpdate>, gone: set<nat>)
    ensures forall s :: s in WithoutChildrenOf(stops, gone) <==> s in stops && s.parent !in gone
  {
    if stops != [] {
      WithoutChildrenMembers(stops[1..], gone);
    }
  }

  lemma {:induction false} IngestKeepsLinks(db: Db, feed: seq<Entity>)
    requires Linked(db) && AfterEntities(db, feed).Ok?
    ensures Linked(AfterEntities(db, feed).value)
    decreases |feed|
  {
    if feed != [] {
      var n := |feed| - 1;
      IngestKeepsLinks(db, feed[..n]);
      if feed[n].TripEntity? {
        TripKeepsLinks(AfterEntities(db, feed[..n]).value, feed[n].trip);
      }
    }
  }

  lemma TripKeepsLinks(db: Db, m: TripMessage)
    requires Linked(db) && AfterTrip(db, m).Ok?
    ensures Linked(AfterTrip(db, m).value)
  {
    var db', row := AfterTrip(db, m).value, TripRow(m, db.nextTrip);
    var added := StopRows(m.stops, db.nextTrip);
    forall s | s in db'.stopTimeUpdates
      ensures exists t :: t in db'.tripUpdates && t.id == s.parent
    {
      if s in added {
        assert row in db'.tripUpdates;
      } else {
        var t :| t in db.tripUpdates && t.id == s.parent;
        assert t in db'.tripUpdates;
      }
    }
    forall t | t in db'.tripUpdates
      ensures t.id < db'.nextTrip
    {
      assert t in db.tripUpdates || t == row;
    }
  }

  lemma {:induction false} TripsFromKeepsOrder(trips: seq<TripUpdate>, cutoff: int)
    requires forall i, j :: 0 <= i < j < |trips| ==> trips[i].id < trips[j].id
    ensures forall i, j :: 0 <= i < j < |TripsFrom(trips, cutoff)| ==>
              TripsFrom(trips, cutoff)[i].id < TripsFrom(trips, cutoff)[j].id
  {
    if trips != [] {
      TripsFromKeepsOrder(trips[1..], cutoff);
      TripsFromMembers(trips[1..], cutoff);
      var rest := TripsFrom(trips[1..], cutoff);
      forall j | 0 <= j < |rest|
        ensures trips[0].id < rest[j].id
      {
        assert rest[j] in trips[1..];
        var k :| 0 <= k < |trips[1..]| && trips[1..][k] == rest[j];
        assert trips[k + 1] == rest[j];
      }
    }
  }

  /** Pruning leaves no orphan stop_time_update. */
  lemma PruneKeepsLinks(db: Db, cutoff: int)
    requires Linked(db)
    ensures Linked(Pruned(db, cutoff))
  {
    TripsFromKeepsOrder(db.tripUpdates, cutoff);
    TripsFromMembers(db.tripUpdates, cutoff);
    WithoutChildrenMembers(db.stopTimeUpdates, Expired(db.tripUpdates, cutoff));
    var db' := Pruned(db, cutoff);
    forall s | s in db'.stopTimeUpdates
      ensures exists t :: t in db'.tripUpdates && t.id == s.parent
    {
      var t :| t in db.tripUpdates && t.id == s.parent;
      assert t.recordedAt < cutoff ==> t.id in Expired(db.tripUpdates, cutoff);
      assert t in db'.tripUpdates;
    }
  }
}
