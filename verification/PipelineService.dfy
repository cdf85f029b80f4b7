/** refresh_route_delay_stats, rebuild_training_features and run_pipeline on the tables in place. */
module PipelineService {
  import opened Basics
  import opened Calendar
  import opened Clock
  import opened Keyed
  import opened Observations
  import opened RealtimeIngest
  import opened FeaturePipeline
  import opened FeatureRuns
  import opened FeatureColumns

  /** feature_window_days */
  const DEFAULT_WINDOW_DAYS := 30

  /** `window_days or settings.feature_window_days`: 0 counts as not given. */
  function WindowDays(given: Option<int>): int {
    if given.Some? && given.value != 0 then given.value else DEFAULT_WINDOW_DAYS
  }

  function Since(given: Option<int>, clock: int): int {
    clock - WindowDays(given) * DAY
  }

  /** A window given as a positive or negative number of days is that many days before the clock; none,
      or 0, is 30 days. */
  lemma WindowChosen(given: Option<int>, clock: int)
    ensures clock - Since(given, clock) == 86400 * (if given == None || given == Some(0) then 30 else given.value)
  {
  }

  /** What the two stages read: the caller's clock and the database's NOW(). */
  datatype Instants = Instants(clock: int, now: int)

  function PipelineRun(w: Warehouse, days: Option<int>, first: Instants, second: Instants): Warehouse {
    Rebuilt(Refreshed(w, Since(days, first.clock), first.clock, first.now), Since(days, second.clock), second.now)
  }

  ghost predicate CarriesStats(f: Feature, s: Option<StatRow>) {
    if s.Some? then
      f.routeAvg == Some(s.value.avg) && f.routeP50 == Some(s.value.p50) && f.routeP90 == Some(s.value.p90)
    else
      f.routeAvg == None && f.routeP50 == None && f.routeP90 == None
  }

  lemma JoinCarriesStats(w: Warehouse, f: Feature, o: Observation, now: int)
    requires SameDerived(f, DirectJoin(w, o, now))
    ensures CarriesStats(f, Lookup(w.stats, RouteKey, o.route))
  {
    hide Avg, Nearby, Lookup, MonthOf;
  }

  lemma RebuildKeepsInv(w: Warehouse, since: int, now: int)
    requires Inv(w)
    ensures Inv(Rebuilt(w, since, now))
  {
    hide Inv, Rebuilt;
    InvStep(w, Rebuild(since, now));
  }

  lemma RefreshKeepsInv(w: Warehouse, since: int, until: int, now: int)
    requires Inv(w)
    ensures Inv(Refreshed(w, since, until, now))
  {
    hide Inv, Refreshed;
    InvStep(w, Refresh(since, until, now));
  }

  /** Other transactions, none of them a refresh, committing one after the other. */
  function Through(w: Warehouse, between: seq<Step>): Warehouse
    decreases |between|
  {
    if between == [] then w else After(Through(w, between[..|between| - 1]), between[|between| - 1])
  }

  predicate NoRefresh(steps: seq<Step>) {
    forall i :: 0 <= i < |steps| ==> !steps[i].Refresh?
  }

  lemma {:induction false} StatsStay(w: Warehouse, between: seq<Step>)
    requires Inv(w) && NoRefresh(between)
    ensures Inv(Through(w, between)) && Through(w, between).stats == w.stats
    decreases |between|
  {
    hide Inv, Committed, Pruned;
    if between != [] {
      var n := |between| - 1;
      StatsStay(w, between[..n]);
      InvStep(Through(w, between[..n]), between[n]);
    }
  }

  /** Refresh, any other transactions, rebuild: an in-window feature carries the refresh's statistics
      exactly if its route had an observation in the refresh window, and otherwise those the table
      held before, if any. */
  lemma PipelineStats(w: Warehouse, days: Option<int>, first: Instants, between: seq<Step>, second: Instants, i: nat)
    requires Inv(w) && NoRefresh(between)
    requires var table := Through(Refreshed(w, Since(days, first.clock), first.clock, first.now), between).db.observations;
             i < |table| && Since(days, second.clock) <= table[i].observedAt
    ensures var w1 := Through(Refreshed(w, Since(days, first.clock), first.clock, first.now), between);
            var o, w' := w1.db.observations[i], Rebuilt(w1, Since(days, second.clock), second.now);
            var rows := Window(w.db.observations, Since(days, first.clock));
            && o.id in w'.features && w'.features[o.id].materializedAt == second.now
            && Lookup(w'.stats, RouteKey, o.route)
               == (if Occurs(rows, o.route) then
                     Some(StatFor(rows, o.route, Since(days, first.clock), first.clock, first.now))
                   else Lookup(w.stats, RouteKey, o.route))
            && CarriesStats(w'.features[o.id], Lookup(w'.stats, RouteKey, o.route))
  {
    hide Window, Rebuilt, StatFor, Lookup, Occurs, DirectJoin, CarriesStats, FreshStats, Refreshed, Inv, Through, NoRefresh;
    var since := Since(days, first.clock);
    var rows, w0 := Window(w.db.observations, since), Refreshed(w, since, first.clock, first.now);
    RefreshKeepsInv(w, since, first.clock, first.now);
    StatsStay(w0, between);
    var w1 := Through(w0, between);
    var o, w' := w1.db.observations[i], Rebuilt(w1, Since(days, second.clock), second.now);
    InvGives(w);
    InvGives(w1);
    RefreshedRoute(w, rows, o.route, since, first.clock, first.now);
    RebuildAgreesWithJoin(w1, Since(days, second.clock), second.now, w1.db.nextObservation);
    RebuildOnlyFeatures(w1, Since(days, second.clock), second.now);
    assert RebuiltRow(w1, w', o, second.now);
    JoinCarriesStats(w1, w'.features[o.id], o, second.now);
    JoinStamped(w1, o, second.now);
  }

  lemma JoinStamped(w: Warehouse, o: Observation, now: int)
    ensures DirectJoin(w, o, now).materializedAt == now
  {
  }

  lemma InvGives(w: Warehouse)
    requires Inv(w)
    ensures KeysHold(w) && IdsBelow(w.db.observations, w.db.nextObservation) && Distinct(w.stats, RouteKey)
  {
  }

  /** With a clock that does not go backwards, every feature in the rebuild window carries statistics
      computed in this very run: the rebuild's cutoff is never earlier than the refresh's. */
  lemma PipelineUsesItsOwnStats(w: Warehouse, days: Option<int>, first: Instants, second: Instants, i: nat)
    requires Inv(w) && first.clock <= second.clock
    requires i < |w.db.observations| && Since(days, second.clock) <= w.db.observations[i].observedAt
    ensures var o, w' := w.db.observations[i], PipelineRun(w, days, first, second);
            var s := Lookup(w'.stats, RouteKey, o.route);
            && o.id in w'.features && s.Some? && s.value.refreshedAt == first.now && 1 <= s.value.sampleCount
            && w'.features[o.id].routeAvg == Some(s.value.avg)
            && w'.features[o.id].routeP50 == Some(s.value.p50)
            && w'.features[o.id].routeP90 == Some(s.value.p90)
  {
    hide Window, Lookup, Inv, RoutesIn, Rebuilt, FreshStats;
    var o, since := w.db.observations[i], Since(days, first.clock);
    var rows := Window(w.db.observations, since);
    assert Through(Refreshed(w, since, first.clock, first.now), []) == Refreshed(w, since, first.clock, first.now);
    assert PipelineRun(w, days, first, second)
        == Rebuilt(Refreshed(w, since, first.clock, first.now), Since(days, second.clock), second.now);
    PipelineStats(w, days, first, [], second, i);
    WindowMembers(w.db.observations, since);
    assert o in rows;
    var j :| 0 <= j < |rows| && rows[j] == o;
    DelaysOnMembers(rows, o.route);
  }

  /** The other order: features carry the statistics from before the run, none at all on the first. */
  lemma ReversedOrderUsesOldStats(w: Warehouse, days: Option<int>, first: Instants, second: Instants, i: nat)
    requires Inv(w) && i < |w.db.observations| && Since(days, first.clock) <= w.db.observations[i].observedAt
    ensures var o := w.db.observations[i];
            var w' := Refreshed(Rebuilt(w, Since(days, first.clock), first.now),
                                Since(days, second.clock), second.clock, second.now);
            o.id in w'.features && CarriesStats(w'.features[o.id], Lookup(w.stats, RouteKey, o.route))
  {
    hide Window, Rebuilt, Lookup, DirectJoin, CarriesStats, FreshStats, Inv;
    var o, since := w.db.observations[i], Since(days, first.clock);
    InvGives(w);
    RebuildAgreesWithJoin(w, since, first.now, w.db.nextObservation);
    var w1 := Rebuilt(w, since, first.now);
    assert RebuiltRow(w, w1, o, first.now);
    JoinCarriesStats(w, w1.features[o.id], o, first.now);
  }

  class Tables {
    var db: Db
    var stats: seq<StatRow>
    var features: map<nat, Feature>
    var weather: seq<WeatherRow>
    var holidays: seq<Holiday>

    constructor ()
      ensures Contents() == START
    {
      db, stats, features, weather, holidays := EMPTY, [], map[], [], [];
    }

    function Contents(): Warehouse
      reads this
    {
      Warehouse(db, stats, features, weather, holidays)
    }

    /** Returns the number of routes refreshed. */
    method RefreshRouteDelayStats(windowDays: Option<int>, clock: int, now: int) returns (rowcount: nat)
      modifies `stats
      ensures Contents() == Refreshed(old(Contents()), Since(windowDays, clock), clock, now)
      ensures rowcount == |FreshStats(old(Contents()), Since(windowDays, clock), clock, now)|
      ensures RefreshedFrom(old(Contents()), stats, Since(windowDays, clock), clock, now)
    {
      hide Window, RoutesIn, StatRows, PutAll, RefreshedFrom;
      RefreshFollowsRows(Contents(), Since(windowDays, clock), clock, now);
      var since := clock - WindowDays(windowDays) * DAY;
      var rows := Window(db.observations, since);
      var anew := StatRows(rows, RoutesIn(rows), since, clock, now);
      stats := PutAll(stats, RouteKey, anew);
      rowcount := |anew|;
    }

    /** Returns the number of observations in the window; never fails on tables that any run of the
        system can produce. */
    method RebuildTrainingFeatures(windowDays: Option<int>, clock: int, now: int) returns (rowcount: nat)
      requires Inv(Contents())
      modifies `features
      ensures Contents() == Rebuilt(old(Contents()), Since(windowDays, clock), now)
      ensures rowcount == |Window(db.observations, Since(windowDays, clock))|
      ensures RebuiltFrom(old(Contents()), features, Since(windowDays, clock), now)
      ensures Inv(Contents())
    {
      hide Inv, Window, SelectFeatures, DirectJoins, PutFeatures, Rebuilt, After, KeysHold, IdsBelow, RebuiltFrom;
      var since := clock - WindowDays(windowDays) * DAY;
      ghost var before := Contents();
      InvGives(before);
      RebuildNeverTouchesTwice(before, since, now, db.nextObservation);
      OneRowPerObservation(before, Window(db.observations, since), now);
      RebuildKeepsInv(before, since, now);
      RebuiltColumns(before, since, now, db.nextObservation);
      var rows := SelectFeatures(Contents(), Window(db.observations, since), now);
      features := PutFeatures(features, rows);
      rowcount := |rows|;
    }

    /** Statistics first, then features. */
    method RunPipeline(windowDays: Option<int>, first: Instants, second: Instants)
      returns (routeStats: nat, trainingFeatures: nat)
      requires Inv(Contents())
      modifies `stats, `features
      ensures Contents() == PipelineRun(old(Contents()), windowDays, first, second) && Inv(Contents())
      ensures routeStats == |FreshStats(old(Contents()), Since(windowDays, first.clock), first.clock, first.now)|
      ensures trainingFeatures == |Window(db.observations, Since(windowDays, second.clock))|
      ensures RefreshedFrom(old(Contents()), stats, Since(windowDays, first.clock), first.clock, first.now)
      ensures RebuiltFrom(old(Contents()).(stats := stats), features, Since(windowDays, second.clock), second.now)
    {
      ghost var before := Contents();
      routeStats := RefreshRouteDelayStats(windowDays, first.clock, first.now);
      hide Inv, After, Refreshed, RefreshedFrom, RebuiltFrom;
      RefreshKeepsInv(before, Since(windowDays, first.clock), first.clock, first.now);
      trainingFeatures := RebuildTrainingFeatures(windowDays, second.clock, second.now);
    }
  }
}
