/** What ingesting a feed leaves in the tables, stated from the fields of its messages alone. */
module IngestFromMessages {
  import opened Basics
  import opened Clock
  import opened Keyed
  import opened Observations
  import opened RealtimeIngest

  // ---------------------------------------------------------------- messages

  /** The stop message reports delay d for key k: the arrival's delay if there is an arrival, else the
      departure's; without a stop, a route or a start date it reports nothing. */
  ghost predicate Reports(m: TripMessage, s: StopMessage, k: Key, d: int) {
    && m.tripId == k.trip && s.stopId == k.stop && m.startDate == On(k.day)
    && m.routeId != "" && s.stopId != ""
    && match s.arrival
       case Some(arrival) => d == arrival.delay
       case None => s.departure.Some? && d == s.departure.value.delay
  }

  ghost predicate ReportsIn(m: TripMessage, j: int, k: Key, d: int) {
    0 <= j < |m.stops| && Reports(m, m.stops[j], k, d)
  }

  ghost predicate TripReports(m: TripMessage, k: Key) {
    exists j, d :: ReportsIn(m, j, k, d)
  }

  ghost predicate EntityReports(e: Entity, k: Key) {
    e.TripEntity? && TripReports(e.trip, k)
  }

  /** The feed's timestamp, or the clock when it has none. */
  function Instant(m: TripMessage): int {
    if m.timestamp != 0 then m.timestamp else m.wallClock
  }

  // ---------------------------------------------------------------- upserts by key

  lemma UpsertRowLookup(table: Table, p: Proposal, id: nat, k: Key)
    requires UniqueKeys(table)
    ensures UniqueKeys(UpsertRow(table, p, id))
    ensures var was, is_ := Lookup(table, RowKey, k), Lookup(UpsertRow(table, p, id), RowKey, k);
            is_ == if p.NaturalKey() != k then was
                   else if was.Some? then Some(Overwrite(was.value, p)) else Some(Fresh(p, id))
  {
    UpsertRowMoves(table, p, id);
    var i, t' := FindBy(table, RowKey, k), UpsertRow(table, p, id);
    if i < |table| {
      assert RowKey(t'[i]) == k;
      LookupUnique(t', RowKey, i);
    } else if p.NaturalKey() == k {
      assert RowKey(t'[|table|]) == k;
      LookupUnique(t', RowKey, |table|);
    } else {
      assert forall j :: 0 <= j < |t'| ==> RowKey(t'[j]) != k;
    }
  }

  lemma {:induction false} UpsertRowsElsewhere(table: Table, rows: seq<Proposal>, id: nat, k: Key)
    requires UniqueKeys(table) && forall a :: 0 <= a < |rows| ==> rows[a].NaturalKey() != k
    ensures UniqueKeys(UpsertRows(table, rows, id))
    ensures Lookup(UpsertRows(table, rows, id), RowKey, k) == Lookup(table, RowKey, k)
    decreases |rows|
  {
    hide UpsertRow, UniqueKeys, Lookup;
    if rows != [] {
      var n := |rows| - 1;
      UpsertRowsElsewhere(table, rows[..n], id, k);
      UpsertRowLookup(UpsertRows(table, rows[..n], id), rows[n], id + n, k);
    }
  }

  lemma {:induction false} UpsertRowsAt(table: Table, rows: seq<Proposal>, id: nat, a: nat)
    requires UniqueKeys(table) && a < |rows|
    requires forall b :: 0 <= b < |rows| && b != a ==> rows[b].NaturalKey() != rows[a].NaturalKey()
    ensures UniqueKeys(UpsertRows(table, rows, id))
    ensures var was := Lookup(table, RowKey, rows[a].NaturalKey());
            Lookup(UpsertRows(table, rows, id), RowKey, rows[a].NaturalKey())
            == if was.Some? then Some(Overwrite(was.value, rows[a])) else Some(Fresh(rows[a], id + a))
    decreases |rows|
  {
    hide UpsertRow, UniqueKeys, Lookup;
    var n := |rows| - 1;
    if a == n {
      UpsertRowsElsewhere(table, rows[..n], id, rows[a].NaturalKey());
    } else {
      UpsertRowsAt(table, rows[..n], id, a);
    }
    UpsertRowLookup(UpsertRows(table, rows[..n], id), rows[n], id + n, rows[a].NaturalKey());
  }

  // ---------------------------------------------------------------- one trip update

  /** What one trip update does to the row of a key. */
  ghost predicate TripEffect(was: Option<Observation>, m: TripMessage, k: Key, is_: Option<Observation>) {
    if TripReports(m, k) then
      && is_.Some? && (forall j, d :: ReportsIn(m, j, k, d) ==> is_.value.delay == d)
      && is_.value.observedAt == Instant(m)
      && is_.value.hour == HourOf(Instant(m)) && is_.value.dow == WeekdayOf(Instant(m))
      && is_.value.route == (if was.Some? then was.value.route else m.routeId)
      && (was.Some? ==> is_.value.id == was.value.id)
    else is_ == was
  }

  lemma ReportQualifies(m: TripMessage, s: StopMessage, k: Key, d: int)
    requires Reports(m, s, k, d)
    ensures Qualifies(m, s)
    ensures ObservationRow(m, s) == Proposal(m.routeId, k.trip, k.stop, Instant(m), k.day, HourOf(Instant(m)),
                                             WeekdayOf(Instant(m)), d)
  {
    hide HourOf, WeekdayOf;
  }

  lemma QualifyingReports(m: TripMessage, s: StopMessage)
    requires Qualifies(m, s)
    ensures Reports(m, s, ObservationRow(m, s).NaturalKey(), ObservationRow(m, s).delay)
  {
    hide HourOf, WeekdayOf;
  }

  lemma RowReports(m: TripMessage, a: nat)
    requires a < |RowsOf(m)|
    ensures TripReports(m, RowsOf(m)[a].NaturalKey())
  {
    hide ObservationRows, Qualifies, ObservationRow, Reports;
    var j := RowSource(m, m.stops, a);
    QualifyingReports(m, m.stops[j]);
    assert ReportsIn(m, j, RowsOf(m)[a].NaturalKey(), RowsOf(m)[a].delay);
  }

  lemma ReportedRow(m: TripMessage, j: int, k: Key, d: int) returns (a: nat)
    requires ReportsIn(m, j, k, d)
    ensures a < |RowsOf(m)| && RowsOf(m)[a].NaturalKey() == k
    ensures RowsOf(m)[a] == Proposal(m.routeId, k.trip, k.stop, Instant(m), k.day, HourOf(Instant(m)),
                                     WeekdayOf(Instant(m)), d)
  {
    hide ObservationRows, Qualifies, Reports, HourOf, WeekdayOf;
    RowPositions(m, m.stops);
    ReportQualifies(m, m.stops[j], k, d);
    a := |ObservationRows(m, m.stops[..j])|;
  }

  lemma TripChangesObservations(db: Db, m: TripMessage, k: Key)
    requires UniqueKeys(db.observations) && AfterTrip(db, m).Ok?
    ensures UniqueKeys(AfterTrip(db, m).value.observations)
    ensures TripEffect(Lookup(db.observations, RowKey, k), m, k,
                       Lookup(AfterTrip(db, m).value.observations, RowKey, k))
  {
    hide UniqueKeys, Lookup, UpsertRows, ObservationRows, ReportsIn, HourOf, WeekdayOf;
    var rows, t := RowsOf(m), db.observations;
    if TripReports(m, k) {
      var j, d :| ReportsIn(m, j, k, d);
      var a := ReportedRow(m, j, k, d);
      OnlyRow(rows, a);
      UpsertRowsAt(t, rows, db.nextObservation, a);
      forall j', d' | ReportsIn(m, j', k, d')
        ensures d' == d
      {
        var a' := ReportedRow(m, j', k, d');
        OnlyRow(rows, a);
      }
    } else {
      forall a | 0 <= a < |rows|
        ensures rows[a].NaturalKey() != k
      {
        RowReports(m, a);
      }
      UpsertRowsElsewhere(t, rows, db.nextObservation, k);
    }
  }

  lemma OnlyRow(rows: seq<Proposal>, a: nat)
    requires !TouchesTwice(rows) && a < |rows|
    ensures forall b :: 0 <= b < |rows| && b != a ==> rows[b].NaturalKey() != rows[a].NaturalKey()
  {
    forall b | 0 <= b < |rows| && b != a
      ensures rows[b].NaturalKey() != rows[a].NaturalKey()
    {
      assert ProposalKey(rows[b]) == ProposalKey(rows[a]) ==> Repeats(rows, ProposalKey);
    }
  }

  // ---------------------------------------------------------------- a whole feed: observations

  ghost predicate LastReporter(feed: seq<Entity>, e: int, k: Key) {
    0 <= e < |feed| && EntityReports(feed[e], k) && forall g :: e < g < |feed| ==> !EntityReports(feed[g], k)
  }

  ghost predicate FirstReporter(feed: seq<Entity>, e: int, k: Key) {
    0 <= e < |feed| && EntityReports(feed[e], k) && forall g :: 0 <= g < e ==> !EntityReports(feed[g], k)
  }

  /** What a committed feed does to the row of a key: delay and times from the last trip update that
      reports it, route from the first if the key is new, nothing if none does. */
  ghost predicate FeedEffect(was: Option<Observation>, feed: seq<Entity>, k: Key, is_: Option<Observation>) {
    && ((forall e :: 0 <= e < |feed| ==> !EntityReports(feed[e], k)) ==> is_ == was)
    && (forall e :: LastReporter(feed, e, k) ==>
          && is_.Some? && (forall j, d :: ReportsIn(feed[e].trip, j, k, d) ==> is_.value.delay == d)
          && is_.value.observedAt == Instant(feed[e].trip)
          && is_.value.hour == HourOf(Instant(feed[e].trip)) && is_.value.dow == WeekdayOf(Instant(feed[e].trip)))
    && (forall e :: FirstReporter(feed, e, k) && was.None? && is_.Some? ==> is_.value.route == feed[e].trip.routeId)
    && (was.Some? ==> is_.Some? && is_.value.route == was.value.route && is_.value.id == was.value.id)
    && (is_.Some? ==> was.Some? || exists e :: 0 <= e < |feed| && EntityReports(feed[e], k))
  }

  lemma QuietEntity(was: Option<Observation>, feed: seq<Entity>, k: Key, is_: Option<Observation>, e: Entity)
    requires FeedEffect(was, feed, k, is_) && !EntityReports(e, k)
    ensures FeedEffect(was, feed + [e], k, is_)
  {
    hide EntityReports, ReportsIn, HourOf, WeekdayOf;
    var all := feed + [e];
    assert forall g :: 0 <= g < |feed| ==> all[g] == feed[g];
    forall g | LastReporter(all, g, k)
      ensures LastReporter(feed, g, k) && all[g] == feed[g]
    {
    }
    forall g | FirstReporter(all, g, k)
      ensures FirstReporter(feed, g, k) && all[g] == feed[g]
    {
    }
    if is_.Some? && was.None? {
      var g :| 0 <= g < |feed| && EntityReports(feed[g], k);
      assert EntityReports(all[g], k);
    }
  }

  lemma ReportingEntity(was: Option<Observation>, feed: seq<Entity>, k: Key, mid: Option<Observation>, m: TripMessage,
                        is_: Option<Observation>)
    requires FeedEffect(was, feed, k, mid) && TripReports(m, k) && TripEffect(mid, m, k, is_)
    ensures FeedEffect(was, feed + [TripEntity(m)], k, is_)
  {
    hide TripReports, ReportsIn, HourOf, WeekdayOf;
    var n, all := |feed|, feed + [TripEntity(m)];
    assert forall g :: 0 <= g < n ==> all[g] == feed[g];
    assert all[n] == TripEntity(m) && EntityReports(all[n], k);
    forall g | LastReporter(all, g, k)
      ensures g == n
    {
    }
    forall g | FirstReporter(all, g, k) && was.None?
      ensures is_.value.route == all[g].trip.routeId
    {
      if g < n {
        assert FirstReporter(feed, g, k);
        SomeLastReporter(feed, g, k);
        assert mid.Some?;
      } else {
        assert forall h :: 0 <= h < n ==> !EntityReports(feed[h], k);
        assert mid == was;
      }
    }
  }

  lemma {:induction false} SomeLastReporter(feed: seq<Entity>, e: int, k: Key)
    requires 0 <= e < |feed| && EntityReports(feed[e], k)
    ensures exists g :: LastReporter(feed, g, k)
    decreases |feed| - e
  {
    hide EntityReports;
    if g :| e < g < |feed| && EntityReports(feed[g], k) {
      SomeLastReporter(feed, g, k);
    } else {
      assert LastReporter(feed, e, k);
    }
  }

  lemma {:induction false} FeedChangesObservations(db: Db, feed: seq<Entity>, k: Key)
    requires UniqueKeys(db.observations) && AfterEntities(db, feed).Ok?
    ensures UniqueKeys(AfterEntities(db, feed).value.observations)
    ensures FeedEffect(Lookup(db.observations, RowKey, k), feed, k,
                       Lookup(AfterEntities(db, feed).value.observations, RowKey, k))
    decreases |feed|
  {
    hide UniqueKeys, Lookup, AfterTrip, TripReports, FeedEffect, TripEffect;
    var was := Lookup(db.observations, RowKey, k);
    if feed == [] {
      NoEntities(was, k);
    } else {
      var n := |feed| - 1;
      FeedChangesObservations(db, feed[..n], k);
      var mid := AfterEntities(db, feed[..n]).value;
      assert feed == feed[..n] + [feed[n]];
      if feed[n].TripEntity? {
        TripChangesObservations(mid, feed[n].trip, k);
        var is_ := Lookup(AfterTrip(mid, feed[n].trip).value.observations, RowKey, k);
        if TripReports(feed[n].trip, k) {
          ReportingEntity(was, feed[..n], k, Lookup(mid.observations, RowKey, k), feed[n].trip, is_);
        } else {
          QuietTrip(Lookup(mid.observations, RowKey, k), feed[n].trip, k, is_);
          QuietEntity(was, feed[..n], k, is_, feed[n]);
        }
      } else {
        QuietEntity(was, feed[..n], k, Lookup(mid.observations, RowKey, k), feed[n]);
      }
    }
  }

  lemma NoEntities(was: Option<Observation>, k: Key)
    ensures FeedEffect(was, [], k, was)
  {
  }

  lemma QuietTrip(was: Option<Observation>, m: TripMessage, k: Key, is_: Option<Observation>)
    requires TripEffect(was, m, k, is_) && !TripReports(m, k)
    ensures is_ == was
  {
  }

  // ---------------------------------------------------------------- a whole feed: trip and stop rows

  /** Delay and time of one event: no event, no value; time 0 counts as none. */
  ghost predicate EventStored(e: Option<StopEvent>, delay: Option<int>, time: Option<int>) {
    match e
    case None => delay == None && time == None
    case Some(event) =>
      && delay == Some(event.delay)
      && match event.time
         case None => time == None
         case Some(t) => time == if t == 0 then None else Some(t)
  }

  ghost predicate TextStored(text: string, column: Option<string>) {
    if text == "" then column == None else column == Some(text)
  }

  ghost predicate StopStored(s: StopMessage, parent: nat, row: StopTimeUpdate) {
    && row.parent == parent && TextStored(s.stopId, row.stop) && row.sequence == s.sequence
    && EventStored(s.arrival, row.arrivalDelay, row.arrivalTime)
    && EventStored(s.departure, row.departureDelay, row.departureTime)
  }

  ghost predicate TripStored(m: TripMessage, row: TripUpdate) {
    && row.trip == m.tripId && TextStored(m.routeId, row.route) && TextStored(m.vehicleId, row.vehicle)
    && row.recordedAt == Instant(m)
    && match m.startDate
       case Unset => row.startDate == None
       case On(day) => row.startDate == Some(day)
       case Malformed => false
  }

  function CountStops(feed: seq<Entity>): nat
    decreases |feed|
  {
    if feed == [] then 0
    else CountStops(feed[..|feed| - 1])
         + (if feed[|feed| - 1].TripEntity? then |feed[|feed| - 1].trip.stops| else 0)
  }

  /** The rows of entity e stand behind those of the entities before it. */
  ghost predicate EntityStored(before: Db, feed: seq<Entity>, e: int, after: Db)
    requires 0 <= e < |feed|
  {
    feed[e].TripEntity? ==>
      var a, c := |before.tripUpdates| + CountTrips(feed[..e]), |before.stopTimeUpdates| + CountStops(feed[..e]);
      var stops := feed[e].trip.stops;
      && a < |after.tripUpdates| && TripStored(feed[e].trip, after.tripUpdates[a])
      && c + |stops| <= |after.stopTimeUpdates|
      && forall j :: 0 <= j < |stops| ==> StopStored(stops[j], after.tripUpdates[a].id, after.stopTimeUpdates[c + j])
  }

  ghost predicate RowsStored(before: Db, feed: seq<Entity>, after: Db) {
    && before.tripUpdates <= after.tripUpdates && before.stopTimeUpdates <= after.stopTimeUpdates
    && after.vehiclePositions == before.vehiclePositions
    && |after.tripUpdates| == |before.tripUpdates| + CountTrips(feed)
    && |after.stopTimeUpdates| == |before.stopTimeUpdates| + CountStops(feed)
    && forall e :: 0 <= e < |feed| ==> EntityStored(before, feed, e, after)
  }

  lemma TripIsStored(m: TripMessage, id: nat)
    requires !m.startDate.Malformed?
    ensures TripStored(m, TripRow(m, id)) && TripRow(m, id).id == id
  {
  }

  lemma StopIsStored(s: StopMessage, parent: nat)
    ensures StopStored(s, parent, StopRow(s, parent))
  {
  }

  lemma StoredStays(before: Db, feed: seq<Entity>, e: Entity, mid: Db, after: Db, g: int)
    requires 0 <= g < |feed| && EntityStored(before, feed, g, mid)
    requires mid.tripUpdates <= after.tripUpdates && mid.stopTimeUpdates <= after.stopTimeUpdates
    ensures EntityStored(before, feed + [e], g, after)
  {
    hide TripStored, StopStored, CountTrips, CountStops;
    assert (feed + [e])[..g] == feed[..g];
    assert forall i :: 0 <= i < |mid.stopTimeUpdates| ==> after.stopTimeUpdates[i] == mid.stopTimeUpdates[i];
  }

  lemma {:induction false} FeedStoresRows(db: Db, feed: seq<Entity>)
    requires AfterEntities(db, feed).Ok?
    ensures RowsStored(db, feed, AfterEntities(db, feed).value)
    decreases |feed|
  {
    hide EntityStored, AfterTrip;
    if feed != [] {
      var n := |feed| - 1;
      FeedStoresRows(db, feed[..n]);
      var mid, after := AfterEntities(db, feed[..n]).value, AfterEntities(db, feed).value;
      TripGrows(db, feed, mid);
      assert feed == feed[..n] + [feed[n]];
      forall e | 0 <= e < |feed|
        ensures EntityStored(db, feed, e, after)
      {
        if e < n {
          StoredStays(db, feed[..n], feed[n], mid, after, e);
        }
      }
    }
  }

  lemma TripGrows(db: Db, feed: seq<Entity>, mid: Db)
    requires feed != [] && AfterEntities(db, feed[..|feed| - 1]) == Ok(mid) && AfterEntities(db, feed).Ok?
    requires |mid.tripUpdates| == |db.tripUpdates| + CountTrips(feed[..|feed| - 1])
    requires |mid.stopTimeUpdates| == |db.stopTimeUpdates| + CountStops(feed[..|feed| - 1])
    ensures var after := AfterEntities(db, feed).value;
            && mid.tripUpdates <= after.tripUpdates && mid.stopTimeUpdates <= after.stopTimeUpdates
            && after.vehiclePositions == mid.vehiclePositions
            && |after.tripUpdates| == |db.tripUpdates| + CountTrips(feed)
            && |after.stopTimeUpdates| == |db.stopTimeUpdates| + CountStops(feed)
            && EntityStored(db, feed, |feed| - 1, after)
  {
    hide TripStored, StopStored, TripRow, StopRows, AfterTrip, EntityStored;
    var e := feed[|feed| - 1];
    if e.TripEntity? {
      TripAddsRows(mid, e.trip);
      LastEntityStored(db, feed, mid, AfterEntities(db, feed).value);
    } else {
      OtherEntityStored(db, feed, mid);
    }
  }

  lemma TripAddsRows(db: Db, m: TripMessage)
    requires AfterTrip(db, m).Ok?
    ensures !m.startDate.Malformed?
    ensures var after := AfterTrip(db, m).value;
            && after.tripUpdates == db.tripUpdates + [TripRow(m, db.nextTrip)]
            && after.stopTimeUpdates == db.stopTimeUpdates + StopRows(m.stops, db.nextTrip)
            && after.vehiclePositions == db.vehiclePositions
  {
    hide TripRow, StopRows, UpsertRows, RowsOf, TouchesTwice;
  }

  lemma OtherEntityStored(before: Db, feed: seq<Entity>, after: Db)
    requires feed != [] && feed[|feed| - 1].Other?
    ensures EntityStored(before, feed, |feed| - 1, after)
  {
  }

  lemma LastEntityStored(before: Db, feed: seq<Entity>, mid: Db, after: Db)
    requires feed != [] && feed[|feed| - 1].TripEntity? && !feed[|feed| - 1].trip.startDate.Malformed?
    requires |mid.tripUpdates| == |before.tripUpdates| + CountTrips(feed[..|feed| - 1])
    requires |mid.stopTimeUpdates| == |before.stopTimeUpdates| + CountStops(feed[..|feed| - 1])
    requires var m := feed[|feed| - 1].trip;
             && after.tripUpdates == mid.tripUpdates + [TripRow(m, mid.nextTrip)]
             && after.stopTimeUpdates == mid.stopTimeUpdates + StopRows(m.stops, mid.nextTrip)
    ensures EntityStored(before, feed, |feed| - 1, after)
  {
    hide TripStored, StopStored, TripRow, StopRow, StopRows, CountTrips, CountStops;
    var m := feed[|feed| - 1].trip;
    TripIsStored(m, mid.nextTrip);
    assert after.tripUpdates[|mid.tripUpdates|] == TripRow(m, mid.nextTrip);
    forall j | 0 <= j < |m.stops|
      ensures StopStored(m.stops[j], mid.nextTrip, after.stopTimeUpdates[|mid.stopTimeUpdates| + j])
    {
      StopIsStored(m.stops[j], mid.nextTrip);
      assert after.stopTimeUpdates[|mid.stopTimeUpdates| + j] == StopRows(m.stops, mid.nextTrip)[j];
    }
  }

  // ---------------------------------------------------------------- the outcome of a feed

  /** The stop message has all that an observation needs. */
  ghost predicate Complete(m: TripMessage, s: StopMessage) {
    (s.arrival.Some? || s.departure.Some?) && s.stopId != "" && m.routeId != "" && m.startDate.On?
  }

  /** No start date is malformed and no trip update reports one stop twice. */
  ghost predicate WellFormed(feed: seq<Entity>) {
    forall e :: 0 <= e < |feed| && feed[e].TripEntity? ==> WellFormedTrip(feed[e].trip)
  }

  ghost predicate WellFormedTrip(m: TripMessage) {
    !m.startDate.Malformed? &&
    forall i, j :: 0 <= i < j < |m.stops| && m.stops[i].stopId == m.stops[j].stopId ==>
      !(Complete(m, m.stops[i]) && Complete(m, m.stops[j]))
  }

  lemma WellFormedIsAcceptable(feed: seq<Entity>)
    ensures WellFormed(feed) <==> Acceptable(feed)
  {
    hide RowsOf, TouchesTwice;
    forall m: TripMessage
      ensures WellFormedTrip(m) <==> !m.startDate.Malformed? && !TouchesTwice(RowsOf(m))
    {
      TouchesTwiceIffStopRepeats(m);
      forall i | 0 <= i < |m.stops|
        ensures Qualifies(m, m.stops[i]) <==> Complete(m, m.stops[i])
      {
      }
    }
  }

  /** Everything a well-formed feed does to the tables. */
  ghost predicate FeedApplied(before: Db, feed: seq<Entity>, after: Db) {
    && RowsStored(before, feed, after)
    && forall k :: FeedEffect(Lookup(before.observations, RowKey, k), feed, k, Lookup(after.observations, RowKey, k))
  }

  /** A feed is committed if and only if it is well-formed, and then does all that its messages say. */
  lemma IngestFollowsMessages(db: Db, feed: seq<Entity>)
    requires UniqueKeys(db.observations)
    ensures if WellFormed(feed) then FeedApplied(db, feed, Committed(db, feed)) else Committed(db, feed) == db
  {
    hide UniqueKeys, WellFormed, Acceptable, FeedEffect, RowsStored, Lookup;
    WellFormedIsAcceptable(feed);
    CommitsIffAcceptable(db, feed);
    if WellFormed(feed) {
      FeedStoresRows(db, feed);
      forall k
        ensures FeedEffect(Lookup(db.observations, RowKey, k), feed, k, Lookup(Committed(db, feed).observations, RowKey, k))
      {
        FeedChangesObservations(db, feed, k);
      }
    }
  }

  lemma OneTrip(db: Db, m: TripMessage)
    ensures AfterEntities(db, [TripEntity(m)]) == AfterTrip(db, m)
  {
    hide AfterTrip;
    assert [TripEntity(m)][..0] == [];
    assert AfterEntities(db, []) == Ok(db);
  }

  lemma TripFollowsMessages(db: Db, m: TripMessage)
    requires UniqueKeys(db.observations) && AfterTrip(db, m).Ok?
    ensures FeedApplied(db, [TripEntity(m)], AfterTrip(db, m).value)
  {
    hide UniqueKeys, AfterTrip, FeedApplied, WellFormed, Acceptable;
    OneTrip(db, m);
    CommitsIffAcceptable(db, [TripEntity(m)]);
    WellFormedIsAcceptable([TripEntity(m)]);
    IngestFollowsMessages(db, [TripEntity(m)]);
  }

  // ---------------------------------------------------------------- pruning

  /** What is left: trip updates from the cutoff on, the stop rows of those trips, positions from the
      cutoff on, each as often as before. */
  ghost predicate PrunedFrom(before: Db, cutoff: int, after: Db) {
    && (forall t :: multiset(after.tripUpdates)[t]
          == if cutoff <= t.recordedAt then multiset(before.tripUpdates)[t] else 0)
    && (forall s :: multiset(after.stopTimeUpdates)[s]
          == if ParentExpired(before, cutoff, s) then 0 else multiset(before.stopTimeUpdates)[s])
    && (forall at :: multiset(after.vehiclePositions)[at]
          == if cutoff <= at then multiset(before.vehiclePositions)[at] else 0)
    && after.observations == before.observations
  }

  ghost predicate ParentExpired(db: Db, cutoff: int, s: StopTimeUpdate) {
    exists i :: 0 <= i < |db.tripUpdates| && db.tripUpdates[i].id == s.parent && db.tripUpdates[i].recordedAt < cutoff
  }

  lemma {:induction false} TripsKept(trips: seq<TripUpdate>, cutoff: int, t: TripUpdate)
    ensures multiset(TripsFrom(trips, cutoff))[t] == if cutoff <= t.recordedAt then multiset(trips)[t] else 0
  {
    if trips != [] {
      TripsKept(trips[1..], cutoff, t);
      assert trips == [trips[0]] + trips[1..];
    }
  }

  lemma {:induction false} StopsKept(stops: seq<StopTimeUpdate>, gone: set<nat>, s: StopTimeUpdate)
    ensures multiset(WithoutChildrenOf(stops, gone))[s] == if s.parent in gone then 0 else multiset(stops)[s]
  {
    if stops != [] {
      StopsKept(stops[1..], gone, s);
      assert stops == [stops[0]] + stops[1..];
    }
  }

  lemma {:induction false} PositionsKept(positions: seq<int>, cutoff: int, at: int)
    ensures multiset(PositionsFrom(positions, cutoff))[at] == if cutoff <= at then multiset(positions)[at] else 0
  {
    if positions != [] {
      var x, rest := positions[0], positions[1..];
      PositionsKept(rest, cutoff, at);
      assert positions == [x] + rest;
      assert PositionsFrom(positions, cutoff) == (if cutoff <= x then [x] else []) + PositionsFrom(rest, cutoff);
    }
  }

  lemma ExpiredParents(db: Db, cutoff: int, s: StopTimeUpdate)
    ensures s.parent in Expired(db.tripUpdates, cutoff) <==> ParentExpired(db, cutoff, s)
  {
    if s.parent in Expired(db.tripUpdates, cutoff) {
      var t :| t in db.tripUpdates && t.recordedAt < cutoff && t.id == s.parent;
      var i :| 0 <= i < |db.tripUpdates| && db.tripUpdates[i] == t;
    }
  }

  lemma PruneKeepsExactly(db: Db, cutoff: int)
    ensures PrunedFrom(db, cutoff, Pruned(db, cutoff))
  {
    hide TripsFrom, WithoutChildrenOf, PositionsFrom, Expired, ParentExpired;
    var after := Pruned(db, cutoff);
    forall t: TripUpdate
      ensures multiset(after.tripUpdates)[t] == if cutoff <= t.recordedAt then multiset(db.tripUpdates)[t] else 0
    {
      TripsKept(db.tripUpdates, cutoff, t);
    }
    forall s: StopTimeUpdate
      ensures multiset(after.stopTimeUpdates)[s]
           == if ParentExpired(db, cutoff, s) then 0 else multiset(db.stopTimeUpdates)[s]
    {
      StopsKept(db.stopTimeUpdates, Expired(db.tripUpdates, cutoff), s);
      ExpiredParents(db, cutoff, s);
    }
    forall at: int
      ensures multiset(after.vehiclePositions)[at] == if cutoff <= at then multiset(db.vehiclePositions)[at] else 0
    {
      PositionsKept(db.vehiclePositions, cutoff, at);
    }
  }
}
