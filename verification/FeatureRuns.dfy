/** Any interleaving of ingestion, pruning, weather and holiday syncs, statistics refreshes and
    feature rebuilds, one committed transaction per step. */
module FeatureRuns {
  import opened Basics
  import opened Calendar
  import opened Clock
  import opened Keyed
  import opened Observations
  import opened RealtimeIngest
  import opened FeaturePipeline

  datatype Step =
    | Ingest(feed: seq<Entity>)
    | Prune(cutoff: int)
    | AddWeather(readings: seq<WeatherRow>)
    | SyncHolidays(dates: seq<Holiday>)
    | Refresh(since: int, until: int, now: int)
    | Rebuild(since: int, now: int)

  const START := Warehouse(EMPTY, [], map[], [], [])

  function After(w: Warehouse, s: Step): Warehouse {
    match s
    case Ingest(feed) => w.(db := Committed(w.db, feed))
    case Prune(cutoff) => w.(db := Pruned(w.db, cutoff))
    case AddWeather(readings) => w.(weather := AddAbsent(w.weather, WeatherKey, readings))
    case SyncHolidays(dates) =>
      if Repeats(dates, DateKey) then w else w.(holidays := PutAll(w.holidays, DateKey, dates))
    case Refresh(since, until, now) => Refreshed(w, since, until, now)
    case Rebuild(since, now) => Rebuilt(w, since, now)
  }

  function Run(steps: seq<Step>): Warehouse
    decreases |steps|
  {
    if steps == [] then START else After(Run(steps[..|steps| - 1]), steps[|steps| - 1])
  }

  // ---------------------------------------------------------------- the invariant

  /** hour, day of week and weekend flag are those of the feature's own observed_at. */
  predicate SelfConsistent(f: Feature) {
    && f.hour == HourOf(f.observedAt) && f.dow == WeekdayOf(f.observedAt)
    && f.isWeekend == (f.dow == 5 || f.dow == 6)
  }

  predicate Names(f: Feature, o: Observation) {
    && f.observationId == o.id && f.route == o.route && f.trip == o.trip && f.stop == o.stop
    && f.day == o.day && f.month == MonthOf(o.day)
  }

  ghost predicate NamesSome(f: Feature, table: Table) {
    exists i :: 0 <= i < |table| && Names(f, table[i])
  }

  ghost predicate FeaturesNameRows(features: map<nat, Feature>, table: Table) {
    forall id :: id in features ==>
      features[id].observationId == id && SelfConsistent(features[id]) && NamesSome(features[id], table)
  }

  ghost predicate TableHolds(db: Db) {
    UniqueKeys(db.observations) && IdsBelow(db.observations, db.nextObservation) && WellTimed(db.observations)
  }

  ghost predicate Inv(w: Warehouse) {
    && KeysHold(w) && Distinct(w.weather, WeatherKey)
    && TableHolds(w.db) && FeaturesNameRows(w.features, w.db.observations)
  }

  lemma IngestKeepsTable(db: Db, feed: seq<Entity>)
    requires TableHolds(db)
    ensures TableHolds(Committed(db, feed))
    ensures Extends(db.observations, Committed(db, feed).observations)
  {
    hide UniqueKeys, IdsBelow, WellTimed, UpsertRows, AfterEntities;
    if AfterEntities(db, feed).Ok? {
      FeedReplays(db, feed);
      LogIsWellTimed(feed);
      UpsertRowsKeep(db.observations, LogOf(feed), db.nextObservation);
      UpsertRowsExtend(db.observations, LogOf(feed), db.nextObservation);
    } else {
      assert Extends(db.observations, db.observations);
    }
  }

  lemma NamesSurvive(features: map<nat, Feature>, table: Table, table': Table)
    requires FeaturesNameRows(features, table) && Extends(table, table')
    ensures FeaturesNameRows(features, table')
  {
    hide MonthOf, SelfConsistent;
    forall id | id in features
      ensures NamesSome(features[id], table')
    {
      var i :| 0 <= i < |table| && Names(features[id], table[i]);
      assert Names(features[id], table'[i]);
    }
  }

  lemma JoinNamesItsRow(w: Warehouse, i: nat, now: int)
    requires TableHolds(w.db) && i < |w.db.observations|
    ensures var f := DirectJoin(w, w.db.observations[i], now);
            SelfConsistent(f) && Names(f, w.db.observations[i]) && NamesSome(f, w.db.observations)
  {
    assert Names(DirectJoin(w, w.db.observations[i], now), w.db.observations[i]);
  }

  lemma SameFirstSameName(f: Feature, g: Feature, table: Table)
    requires SameFirst(f, g) && SelfConsistent(g) && NamesSome(g, table)
    ensures SelfConsistent(f) && NamesSome(f, table)
  {
    var i :| 0 <= i < |table| && Names(g, table[i]);
    assert Names(f, table[i]);
  }

  lemma RebuildKeepsNames(w: Warehouse, since: int, now: int)
    requires Inv(w)
    ensures FeaturesNameRows(Rebuilt(w, since, now).features, w.db.observations)
  {
    hide SelfConsistent, NamesSome, Names, DirectJoin, Rebuilt, SameFirst, SameDerived;
    var table, w' := w.db.observations, Rebuilt(w, since, now);
    RebuildAgreesWithJoin(w, since, now, w.db.nextObservation);
    forall id | id in w'.features
      ensures w'.features[id].observationId == id
      ensures SelfConsistent(w'.features[id]) && NamesSome(w'.features[id], table)
    {
      if InWindow(table, since, id) {
        var i :| 0 <= i < |table| && table[i].id == id && since <= table[i].observedAt;
        RebuiltRowNames(w, w', i, now);
      } else {
        assert Untouched(w, w', id);
      }
    }
  }

  lemma RebuiltRowNames(w: Warehouse, w': Warehouse, i: nat, now: int)
    requires Inv(w) && i < |w.db.observations| && RebuiltRow(w, w', w.db.observations[i], now)
    ensures var o := w.db.observations[i];
            w'.features[o.id].observationId == o.id && SelfConsistent(w'.features[o.id])
            && NamesSome(w'.features[o.id], w.db.observations)
  {
    hide DirectJoin, SelfConsistent, NamesSome;
    var o := w.db.observations[i];
    JoinNamesItsRow(w, i, now);
    SameFirstSameName(w'.features[o.id],
                      if o.id in w.features then w.features[o.id] else DirectJoin(w, o, now), w.db.observations);
  }

  lemma InvStep(w: Warehouse, s: Step)
    requires Inv(w)
    ensures Inv(After(w, s))
  {
    hide Distinct, TableHolds, FeaturesNameRows, Committed, Rebuilt, FreshStats, Pruned;
    match s {
      case Ingest(feed) =>
        IngestKeepsTable(w.db, feed);
        NamesSurvive(w.features, w.db.observations, Committed(w.db, feed).observations);
      case Prune(cutoff) => PruneKeepsObservations(w.db, cutoff);
      case AddWeather(readings) => AddAbsentDistinct(w.weather, WeatherKey, readings);
      case SyncHolidays(dates) => PutAllDistinct(w.holidays, DateKey, dates);
      case Refresh(since, until, now) => PutAllDistinct(w.stats, RouteKey, FreshStats(w, since, until, now));
      case Rebuild(since, now) =>
        RebuildKeepsNames(w, since, now);
        RebuildOnlyFeatures(w, since, now);
    }
  }

  lemma PruneKeepsObservations(db: Db, cutoff: int)
    ensures Pruned(db, cutoff).observations == db.observations
    ensures TableHolds(db) ==> TableHolds(Pruned(db, cutoff))
  {
  }

  lemma RebuildOnlyFeatures(w: Warehouse, since: int, now: int)
    ensures Rebuilt(w, since, now) == w.(features := Rebuilt(w, since, now).features)
  {
  }

  /** Over every run: each feature row names an existing observation, agrees with it on route, trip,
      stop, service date and month, and is consistent in itself. */
  lemma {:induction false} InvRun(steps: seq<Step>)
    ensures Inv(Run(steps))
    decreases |steps|
  {
    hide Inv, After;
    if steps == [] {
      assert Inv(START) by { InvStart(); }
    } else {
      InvRun(steps[..|steps| - 1]);
      InvStep(Run(steps[..|steps| - 1]), steps[|steps| - 1]);
    }
  }

  lemma InvStart()
    ensures Inv(START)
  {
  }

  // ---------------------------------------------------------------- which join a column came from

  /** Step n is a rebuild whose window holds observation id. */
  ghost predicate Covers(steps: seq<Step>, n: nat, id: nat) {
    n < |steps| && steps[n].Rebuild? && InWindow(Run(steps[..n]).db.observations, steps[n].since, id)
  }

  /** The direct join for observation id on the tables as step n met them. */
  ghost function JoinAt(steps: seq<Step>, n: nat, id: nat): Feature
    requires Covers(steps, n, id)
  {
    var w := Run(steps[..n]);
    DirectJoin(w, RowWithId(w.db.observations, steps[n].since, id), steps[n].now)
  }

  ghost function RowWithId(table: Table, since: int, id: nat): (o: Observation)
    requires InWindow(table, since, id)
    ensures exists i :: 0 <= i < |table| && table[i] == o && o.id == id && since <= o.observedAt
  {
    var i :| 0 <= i < |table| && table[i].id == id && since <= table[i].observedAt;
    table[i]
  }

  ghost predicate FirstCover(steps: seq<Step>, n: nat, id: nat) {
    Covers(steps, n, id) && forall m: nat :: m < n ==> !Covers(steps, m, id)
  }

  ghost predicate LastCover(steps: seq<Step>, n: nat, id: nat) {
    Covers(steps, n, id) && forall m: nat :: n < m < |steps| ==> !Covers(steps, m, id)
  }

  lemma CoversPrefix(steps: seq<Step>, k: nat, n: nat, id: nat)
    requires n < k <= |steps|
    ensures Covers(steps[..k], n, id) <==> Covers(steps, n, id)
    ensures Covers(steps, n, id) ==> JoinAt(steps[..k], n, id) == JoinAt(steps, n, id)
  {
    assert steps[..k][..n] == steps[..n];
  }

  ghost predicate EverCovered(steps: seq<Step>, id: nat) {
    exists n: nat :: Covers(steps, n, id)
  }

  lemma EverCoveredStep(steps: seq<Step>, id: nat)
    requires steps != []
    ensures EverCovered(steps, id) <==> EverCovered(steps[..|steps| - 1], id) || Covers(steps, |steps| - 1, id)
  {
    hide Covers;
    var k := |steps| - 1;
    if EverCovered(steps[..k], id) {
      var n: nat :| Covers(steps[..k], n, id);
      CoversInside(steps[..k], n, id);
      CoversPrefix(steps, k, n, id);
    }
    if EverCovered(steps, id) {
      var n: nat :| Covers(steps, n, id);
      CoversInside(steps, n, id);
      if n < k {
        CoversPrefix(steps, k, n, id);
      }
    }
  }

  lemma CoversInside(steps: seq<Step>, n: nat, id: nat)
    requires Covers(steps, n, id)
    ensures n < |steps|
  {
  }

  /** What the last step does to the feature of one observation. */
  lemma LastStep(steps: seq<Step>, id: nat)
    requires steps != []
    ensures var k := |steps| - 1;
            var before, after := Run(steps[..k]).features, Run(steps).features;
            if Covers(steps, k, id) then
              && id in after && SameDerived(after[id], JoinAt(steps, k, id))
              && SameFirst(after[id], if id in before then before[id] else JoinAt(steps, k, id))
            else
              && (id in after <==> id in before) && (id in before ==> after[id] == before[id])
  {
    hide DirectJoin, SameFirst, SameDerived, Run, After, InWindow;
    var k := |steps| - 1;
    var w, s := Run(steps[..k]), steps[k];
    InvRun(steps[..k]);
    RunUnfolds(steps);
    if Covers(steps, k, id) {
      RebuildStep(w, s, id);
    } else {
      OtherStep(w, s, id);
    }
  }

  lemma RunUnfolds(steps: seq<Step>)
    requires steps != []
    ensures Run(steps) == After(Run(steps[..|steps| - 1]), steps[|steps| - 1])
  {
    hide After;
  }

  lemma RebuildStep(w: Warehouse, s: Step, id: nat)
    requires Inv(w) && s.Rebuild? && InWindow(w.db.observations, s.since, id)
    ensures var o, after := RowWithId(w.db.observations, s.since, id), After(w, s).features;
            && id in after && SameDerived(after[id], DirectJoin(w, o, s.now))
            && SameFirst(after[id], if id in w.features then w.features[id] else DirectJoin(w, o, s.now))
  {
    hide DirectJoin, SameFirst, SameDerived, Rebuilt, Distinct, WellTimed, FeaturesNameRows, UniqueKeys;
    RebuildAgreesWithJoin(w, s.since, s.now, w.db.nextObservation);
    var o := RowWithId(w.db.observations, s.since, id);
    assert RebuiltRow(w, Rebuilt(w, s.since, s.now), o, s.now);
  }

  lemma OtherStep(w: Warehouse, s: Step, id: nat)
    requires Inv(w) && !(s.Rebuild? && InWindow(w.db.observations, s.since, id))
    ensures var after := After(w, s).features;
            (id in after <==> id in w.features) && (id in w.features ==> after[id] == w.features[id])
  {
    hide DirectJoin, Rebuilt, Distinct, WellTimed, FeaturesNameRows, UniqueKeys, Committed, Pruned, FreshStats,
      InWindow, RebuiltRow;
    if s.Rebuild? {
      RebuildAgreesWithJoin(w, s.since, s.now, w.db.nextObservation);
      assert Untouched(w, Rebuilt(w, s.since, s.now), id);
    }
  }

  lemma SameFirstTransitive(f: Feature, g: Feature, h: Feature)
    requires SameFirst(f, g) && SameFirst(g, h)
    ensures SameFirst(f, h)
  {
  }

  /** The materialised row of an observation after any run: it exists exactly if some rebuild had the
      observation in its window; its identity and calendar columns are those of the direct join at
      the first such rebuild, its derived columns and label those of the join at the last one. */
  lemma {:induction false} FirstAndLastJoin(steps: seq<Step>, id: nat)
    ensures id in Run(steps).features <==> EverCovered(steps, id)
    ensures forall n: nat :: FirstCover(steps, n, id) && id in Run(steps).features ==>
              SameFirst(Run(steps).features[id], JoinAt(steps, n, id))
    ensures forall n: nat :: LastCover(steps, n, id) && id in Run(steps).features ==>
              SameDerived(Run(steps).features[id], JoinAt(steps, n, id))
    decreases |steps|
  {
    hide Run, After, JoinAt, SameFirst, SameDerived, Covers;
    if steps == [] {
      NothingYet(id);
    } else {
      var k := |steps| - 1;
      FirstAndLastJoin(steps[..k], id);
      LastStep(steps, id);
      EverCoveredStep(steps, id);
      var after := Run(steps).features;
      forall n: nat | n < k
        ensures Covers(steps[..k], n, id) <==> Covers(steps, n, id)
        ensures Covers(steps, n, id) ==> JoinAt(steps[..k], n, id) == JoinAt(steps, n, id)
      {
        CoversPrefix(steps, k, n, id);
      }
      forall n: nat | FirstCover(steps, n, id) && id in after
        ensures SameFirst(after[id], JoinAt(steps, n, id))
      {
        CoversInside(steps, n, id);
        if n < k {
          assert FirstCover(steps[..k], n, id);
          if Covers(steps, k, id) {
            SameFirstTransitive(after[id], Run(steps[..k]).features[id], JoinAt(steps, n, id));
          }
        } else {
          NotBefore(steps, k, id);
        }
      }
      forall n: nat | LastCover(steps, n, id) && id in after
        ensures SameDerived(after[id], JoinAt(steps, n, id))
      {
        CoversInside(steps, n, id);
        if n < k {
          assert LastCover(steps[..k], n, id);
        }
      }
    }
  }

  lemma NothingYet(id: nat)
    ensures id !in Run([]).features && !EverCovered([], id)
    ensures forall n: nat :: !Covers([], n, id)
  {
  }

  lemma NotBefore(steps: seq<Step>, k: nat, id: nat)
    requires k == |steps| - 1 && forall m: nat :: m < k ==> !Covers(steps, m, id)
    ensures !EverCovered(steps[..k], id)
  {
    hide Covers;
    if EverCovered(steps[..k], id) {
      var m: nat :| Covers(steps[..k], m, id);
      CoversInside(steps[..k], m, id);
      CoversPrefix(steps, k, m, id);
    }
  }

  // ---------------------------------------------------------------- when a rebuilt row is current

  /** A rebuild brings the row of an in-window observation wholly up to date exactly if the row is new
      or was materialised with the observed_at the observation still has. */
  lemma CurrentIff(w: Warehouse, since: int, now: int, i: nat)
    requires Inv(w) && i < |w.db.observations| && since <= w.db.observations[i].observedAt
    ensures var o := w.db.observations[i];
            o.id in Rebuilt(w, since, now).features &&
            (Rebuilt(w, since, now).features[o.id] == DirectJoin(w, o, now) <==>
             (o.id in w.features ==> w.features[o.id].observedAt == o.observedAt))
  {
    hide Rebuilt, Avg, Nearby, Lookup, MonthOf, Distinct;
    var o, w' := w.db.observations[i], Rebuilt(w, since, now);
    RebuildAgreesWithJoin(w, since, now, w.db.nextObservation);
    assert RebuiltRow(w, w', o, now);
    if o.id in w.features {
      var f := w.features[o.id];
      var j :| 0 <= j < |w.db.observations| && Names(f, w.db.observations[j]);
      assert w.db.observations[j].id == o.id;
      assert j == i;
    }
  }

  /** A feed with one trip update for one stop, reporting `delay` at instant `at`. */
  function Report(at: nat, delay: int): seq<Entity> {
    [TripEntity(TripMessage("T", "R", "", On(0), at, 0, [StopMessage("S", None, Some(StopEvent(delay, None)), None)]))]
  }

  lemma ReportUpserts(db: Db, at: nat, delay: int)
    requires 0 < at
    ensures Committed(db, Report(at, delay)).observations
         == UpsertRow(db.observations, Proposal("R", "T", "S", at, 0, HourOf(at), WeekdayOf(at), delay), db.nextObservation)
  {
    var m := Report(at, delay)[0].trip;
    var row := Proposal("R", "T", "S", at, 0, HourOf(at), WeekdayOf(at), delay);
    assert m.stops[..0] == [] && Report(at, delay)[..0] == [] && [row][..0] == [];
    assert Qualifies(m, m.stops[0]) && ObservationRow(m, m.stops[0]) == row;
    assert ObservationRows(m, m.stops) == ObservationRows(m, []) + [row];
    assert !TouchesTwice([row]);
    assert UpsertRows(db.observations, [row], db.nextObservation)
        == UpsertRow(UpsertRows(db.observations, [], db.nextObservation), row, db.nextObservation);
    assert AfterEntities(db, Report(at, delay)) == AfterTrip(db, m) by {
      assert AfterEntities(db, []) == Ok(db);
    }
  }

  const FIRST_OBSERVATION := Observation(0, "R", "T", "S", 36000, 0, 10, 3, 60)
  const SECOND_OBSERVATION := Observation(0, "R", "T", "S", 39600, 0, 11, 3, 90)

  lemma ReportThenRebuild(w: Warehouse, at: nat, delay: int, now: int, o: Observation)
    requires Inv(w) && 0 < at
    requires UpsertRow(w.db.observations, Proposal("R", "T", "S", at, 0, HourOf(at), WeekdayOf(at), delay),
                       w.db.nextObservation) == [o]
    requires 0 <= o.observedAt
    ensures var w' := After(After(w, Ingest(Report(at, delay))), Rebuild(0, now));
            && Inv(w') && w'.db.observations == [o] && o.id in w'.features
            && w'.features[o.id].delay == o.delay
            && w'.features[o.id].hour == if o.id in w.features then w.features[o.id].hour else o.hour
  {
    hide DirectJoin, Rebuilt, Committed, UpsertRow, Inv, Report;
    var w1 := After(w, Ingest(Report(at, delay)));
    ReportUpserts(w.db, at, delay);
    InvStep(w, Ingest(Report(at, delay)));
    InvStep(w1, Rebuild(0, now));
    RebuildOnlyFeatures(w1, 0, now);
    assert w1.db.observations == [o];
    assert w1.db.observations[0].id == o.id;
    RebuildStep(w1, Rebuild(0, now), o.id);
    JoinColumns(w1, o, now);
  }

  /** Two reports for the same stop an hour apart, a rebuild after each: the label, which the rebuild
      updates, follows the second report; the hour of day, which it does not, stays with the first. */
  lemma CalendarColumnsCanLag()
    ensures var w := Run([Ingest(Report(36000, 60)), Rebuild(0, 40000), Ingest(Report(39600, 90)), Rebuild(0, 41000)]);
            && w.db.observations == [SECOND_OBSERVATION] && 0 in w.features
            && w.features[0].delay == 90 && w.features[0].hour == 10
  {
    hide After, Inv, Report;
    var s1, s2, s3, s4 := Ingest(Report(36000, 60)), Rebuild(0, 40000), Ingest(Report(39600, 90)), Rebuild(0, 41000);
    FourSteps(s1, s2, s3, s4);
    InvStart();
    ReportThenRebuild(START, 36000, 60, 40000, FIRST_OBSERVATION);
    ReportThenRebuild(After(After(START, s1), s2), 39600, 90, 41000, SECOND_OBSERVATION);
  }

  lemma FourSteps(a: Step, b: Step, c: Step, d: Step)
    ensures Run([a, b, c, d]) == After(After(After(After(START, a), b), c), d)
  {
    hide After;
    assert [a, b, c, d][..3] == [a, b, c] && [a, b, c][..2] == [a, b] && [a, b][..1] == [a] && [a][..0] == [];
    assert Run([a]) == After(Run([]), a);
    assert Run([a, b]) == After(Run([a]), b);
    assert Run([a, b, c]) == After(Run([a, b]), c);
  }

  lemma JoinColumns(w: Warehouse, o: Observation, now: int)
    ensures DirectJoin(w, o, now).hour == o.hour
    ensures DirectJoin(w, o, now).delay == o.delay
  {
    var f := DirectJoin(w, o, now);
    assert f == FeatureRow(o, Lookup(w.holidays, DateKey, o.day), Nearby(w.weather, o.observedAt),
                           Lookup(w.stats, RouteKey, o.route), now);
  }
}
