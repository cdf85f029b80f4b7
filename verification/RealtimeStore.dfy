/** ingest_trip_updates and prune_old_realtime on the tables in place. */
module RealtimeStore {
  import opened Basics
  import opened Clock
  import opened Observations
  import opened RealtimeIngest
  import opened IngestFromMessages

  class Store {
    var tripUpdates: seq<TripUpdate>
    var stopTimeUpdates: seq<StopTimeUpdate>
    var vehiclePositions: seq<int>
    var observations: Table
    var nextTrip: nat
    var nextObservation: nat

    constructor ()
      ensures Contents() == EMPTY
    {
      tripUpdates, stopTimeUpdates, vehiclePositions, observations := [], [], [], [];
      nextTrip, nextObservation := 0, 0;
    }

    function Contents(): Db
      reads this
    {
      Db(tripUpdates, stopTimeUpdates, vehiclePositions, observations, nextTrip, nextObservation)
    }

    method Restore(db: Db)
      modifies this
      ensures Contents() == db
    {
      tripUpdates, stopTimeUpdates := db.tripUpdates, db.stopTimeUpdates;
      vehiclePositions, observations := db.vehiclePositions, db.observations;
      nextTrip, nextObservation := db.nextTrip, db.nextObservation;
    }

    /** The loop body for one trip update; on failure the caller rolls back. */
    method IngestTrip(m: TripMessage) returns (r: Result<nat, Failure>)
      modifies this
      ensures var spec := AfterTrip(old(Contents()), m);
              if spec.Ok? then r == Ok(|RowsOf(m)|) && Contents() == spec.value else r == Err(spec.error)
      ensures old(UniqueKeys(observations)) ==>
                (r.Ok? <==> WellFormedTrip(m)) && (r.Ok? ==> FeedApplied(old(Contents()), [TripEntity(m)], Contents()))
    {
      hide UpsertRows, TouchesTwice, StopRow, ObservationRow, Qualifies, TripRow, UniqueKeys, FeedApplied, WellFormedTrip;
      ghost var before := Contents();
      TripOutcome(before, m);
      if m.startDate.Malformed? {
        return Err(BadStartDate);
      }
      var id := nextTrip;
      tripUpdates := tripUpdates + [TripRow(m, id)];
      nextTrip := nextTrip + 1;
      var observationRows: seq<Proposal> := [];
      for i := 0 to |m.stops|
        invariant stopTimeUpdates == old(stopTimeUpdates) + StopRows(m.stops[..i], id)
        invariant observationRows == ObservationRows(m, m.stops[..i])
        invariant tripUpdates == old(tripUpdates) + [TripRow(m, id)] && nextTrip == id + 1
        invariant observations == old(observations) && nextObservation == old(nextObservation)
        invariant vehiclePositions == old(vehiclePositions)
      {
        var stu := m.stops[i];
        assert m.stops[..i + 1][..i] == m.stops[..i];
        stopTimeUpdates := stopTimeUpdates + [StopRow(stu, id)];
        assert StopRows(m.stops[..i + 1], id) == StopRows(m.stops[..i], id) + [StopRow(stu, id)];
        if !Qualifies(m, stu) {
          continue;
        }
        observationRows := observationRows + [ObservationRow(m, stu)];
      }
      assert m.stops[..|m.stops|] == m.stops;
      NothingUpserted(observations, nextObservation);
      if observationRows != [] {
        if TouchesTwice(observationRows) {
          return Err(RowTouchedTwice);
        }
        observations := UpsertRows(observations, observationRows, nextObservation);
        nextObservation := nextObservation + |observationRows|;
      }
      return Ok(|observationRows|);
    }

    /** Returns the number of trip updates; a failure anywhere leaves every table unchanged. */
    method IngestTripUpdates(feed: seq<Entity>) returns (r: Result<nat, Failure>)
      modifies this
      ensures Contents() == Committed(old(Contents()), feed)
      ensures Acceptable(feed) ==> r == Ok(CountTrips(feed))
      ensures !Acceptable(feed) ==> r.Err? && Contents() == old(Contents())
      ensures r.Ok? <==> WellFormed(feed)
      ensures r.Ok? && old(UniqueKeys(observations)) ==> FeedApplied(old(Contents()), feed, Contents())
    {
      hide UniqueKeys, FeedApplied, WellFormed, WellFormedTrip, AfterTrip, Acceptable;
      var begin := Contents();
      WellFormedIsAcceptable(feed);
      if UniqueKeys(begin.observations) {
        IngestFollowsMessages(begin, feed);
      }
      CommitsIffAcceptable(begin, feed);
      var trips := 0;
      for i := 0 to |feed|
        invariant AfterEntities(begin, feed[..i]) == Ok(Contents())
        invariant trips == CountTrips(feed[..i])
      {
        assert feed[..i + 1][..i] == feed[..i];
        if feed[i].Other? {
          continue;
        }
        var step := IngestTrip(feed[i].trip);
        if step.Err? {
          FailureSticks(begin, feed, i + 1);
          Restore(begin);
          return Err(step.error);
        }
        trips := trips + 1;
      }
      assert feed[..|feed|] == feed;
      return Ok(trips);
    }

    /** Returns the number of rows the two DELETE statements name: trip updates and vehicle
        positions, not the stop_time_updates that cascade.  Observations are not touched. */
    method PruneOldRealtime(now: int, retentionHours: int) returns (removed: nat)
      modifies `tripUpdates, `stopTimeUpdates, `vehiclePositions
      ensures Contents() == Pruned(old(Contents()), now - retentionHours * HOUR)
      ensures removed == (|old(tripUpdates)| - |tripUpdates|) + (|old(vehiclePositions)| - |vehiclePositions|)
      ensures old(Linked(Contents())) ==> Linked(Contents())
      ensures PrunedFrom(old(Contents()), now - retentionHours * HOUR, Contents())
    {
      hide PrunedFrom, Linked;
      var cutoff := now - retentionHours * HOUR;
      ghost var before := Contents();
      var gone := Expired(tripUpdates, cutoff);
      var kept := TripsFrom(tripUpdates, cutoff);
      var r1 := |tripUpdates| - |kept|;
      tripUpdates, stopTimeUpdates := kept, WithoutChildrenOf(stopTimeUpdates, gone);
      var positions := PositionsFrom(vehiclePositions, cutoff);
      var r2 := |vehiclePositions| - |positions|;
      vehiclePositions := positions;
      removed := r1 + r2;
      PruneKeepsExactly(before, cutoff);
      if Linked(before) {
        PruneKeepsLinks(before, cutoff);
      }
    }
  }

  lemma TripOutcome(db: Db, m: TripMessage)
    ensures AfterTrip(db, m).Ok? <==> WellFormedTrip(m)
    ensures AfterTrip(db, m).Ok? && UniqueKeys(db.observations) ==>
              FeedApplied(db, [TripEntity(m)], AfterTrip(db, m).value)
  {
    hide UniqueKeys, FeedApplied, WellFormedTrip, AfterTrip;
    OneTrip(db, m);
    CommitsIffAcceptable(db, [TripEntity(m)]);
    WellFormedIsAcceptable([TripEntity(m)]);
    assert WellFormed([TripEntity(m)]) <==> WellFormedTrip(m) by {
      assert [TripEntity(m)][0].trip == m;
    }
    if AfterTrip(db, m).Ok? && UniqueKeys(db.observations) {
      TripFollowsMessages(db, m);
    }
  }
}
