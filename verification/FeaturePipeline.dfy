/** Route statistics and the materialised training features. */
module FeaturePipeline {
  import opened Basics
  import opened Calendar
  import opened Clock
  import opened Keyed
  import opened Observations
  import opened Statistics
  import opened RealtimeIngest
  import P = Predictor

  datatype WeatherRow = WeatherRow(station: string, observedAt: int, airTemp: Option<real>,
                                   rainfall: Option<real>, humidity: Option<real>)

  datatype Holiday = Holiday(date: int, name: string)

  datatype StatRow = StatRow(route: string, windowStart: int, windowEnd: int, sampleCount: nat,
                             avg: P.Ratio, p50: P.Ratio, p90: P.Ratio, refreshedAt: int)

  datatype Feature = Feature(observationId: nat, route: string, trip: string, stop: string,
                             observedAt: int, day: int, hour: int, dow: int, isWeekend: bool,
                             isHoliday: bool, month: int, airTemp: Option<real>, rainfall: Option<real>,
                             humidity: Option<real>, routeAvg: Option<P.Ratio>, routeP50: Option<P.Ratio>,
                             routeP90: Option<P.Ratio>, delay: int, materializedAt: int)

  datatype Warehouse = Warehouse(db: Db, stats: seq<StatRow>, features: map<nat, Feature>,
                                 weather: seq<WeatherRow>, holidays: seq<Holiday>)

  function RouteKey(r: StatRow): string { r.route }

  function DateKey(h: Holiday): int { h.date }

  function WeatherKey(r: WeatherRow): (string, int) { (r.station, r.observedAt) }

  function IdKey(f: Feature): nat { f.observationId }

  // ---------------------------------------------------------------- route statistics

  /** WHERE observed_at >= :since. */
  function Window(table: Table, since: int): seq<Observation> {
    if table == [] then []
    else (if since <= table[0].observedAt then [table[0]] else []) + Window(table[1..], since)
  }

  lemma {:induction false} WindowMembers(table: Table, since: int)
    ensures forall o :: o in Window(table, since) <==> o in table && since <= o.observedAt
  {
    if table != [] {
      WindowMembers(table[1..], since);
    }
  }

  function DelaysOn(rows: seq<Observation>, route: string): seq<int> {
    if rows == [] then []
    else (if rows[0].route == route then [rows[0].delay] else []) + DelaysOn(rows[1..], route)
  }

  /** GROUP BY route_id: each route once. */
  function RoutesIn(rows: seq<Observation>): (r: seq<string>)
    decreases |rows|
  {
    if rows == [] then []
    else
      var n := |rows| - 1;
      var before := RoutesIn(rows[..n]);
      if rows[n].route in before then before else before + [rows[n].route]
  }

  /** `until` is the caller's clock, `now` the database's. */
  function StatFor(rows: seq<Observation>, route: string, since: int, until: int, now: int): StatRow {
    var xs := DelaysOn(rows, route);
    StatRow(route, since / DAY, until / DAY, |xs|, P.MeanOf(xs),
            if xs == [] then P.Ratio(0, 1) else P.Ratio(PercentileTimes10(xs, 5), 10),
            if xs == [] then P.Ratio(0, 1) else P.Ratio(PercentileTimes10(xs, 9), 10), now)
  }

  function StatRows(rows: seq<Observation>, routes: seq<string>, since: int, until: int, now: int)
    : (r: seq<StatRow>)
    ensures |r| == |routes|
    ensures forall i :: 0 <= i < |routes| ==> r[i] == StatFor(rows, routes[i], since, until, now)
  {
    seq(|routes|, i requires 0 <= i < |routes| => StatFor(rows, routes[i], since, until, now))
  }

  function FreshStats(w: Warehouse, since: int, until: int, now: int): seq<StatRow> {
    var rows := Window(w.db.observations, since);
    StatRows(rows, RoutesIn(rows), since, until, now)
  }

  /** refresh_route_delay_stats with the window starting at `since`. */
  function Refreshed(w: Warehouse, since: int, until: int, now: int): Warehouse {
    w.(stats := PutAll(w.stats, RouteKey, FreshStats(w, since, until, now)))
  }

  ghost predicate Occurs(rows: seq<Observation>, route: string) {
    exists i :: 0 <= i < |rows| && rows[i].route == route
  }

  ghost predicate AllDifferent(routes: seq<string>) {
    forall i, j :: 0 <= i < j < |routes| ==> routes[i] != routes[j]
  }

  lemma {:induction false} RoutesInMembers(rows: seq<Observation>)
    ensures forall r :: r in RoutesIn(rows) <==> Occurs(rows, r)
    ensures AllDifferent(RoutesIn(rows))
    decreases |rows|
  {
    if rows != [] {
      var n := |rows| - 1;
      RoutesInMembers(rows[..n]);
      forall r
        ensures Occurs(rows, r) <==> Occurs(rows[..n], r) || r == rows[n].route
      {
        if Occurs(rows[..n], r) {
          var i :| 0 <= i < n && rows[..n][i].route == r;
          assert rows[i].route == r;
        }
        if Occurs(rows, r) && r != rows[n].route {
          var i :| 0 <= i < |rows| && rows[i].route == r;
          assert rows[..n][i].route == r;
        }
      }
    }
  }

  lemma {:induction false} DelaysOnMembers(rows: seq<Observation>, route: string)
    ensures forall i :: 0 <= i < |rows| && rows[i].route == route ==> rows[i].delay in DelaysOn(rows, route)
    ensures Occurs(rows, route) ==> DelaysOn(rows, route) != []
  {
    if rows != [] {
      DelaysOnMembers(rows[1..], route);
      assert forall i :: 0 < i < |rows| ==> rows[i] == rows[1..][i - 1];
    }
  }

  lemma {:induction false} DelaysOnWithin(rows: seq<Observation>, route: string, lo: int, hi: int)
    requires DelaysWithin(rows, route, lo, hi)
    ensures forall i :: 0 <= i < |DelaysOn(rows, route)| ==> lo <= DelaysOn(rows, route)[i] <= hi
  {
    if rows != [] {
      assert forall i :: 0 < i < |rows| ==> rows[i] == rows[1..][i - 1];
      DelaysOnWithin(rows[1..], route, lo, hi);
    }
  }

  function Counted(rows: seq<Observation>, routes: seq<string>): nat {
    if routes == [] then 0 else |DelaysOn(rows, routes[0])| + Counted(rows, routes[1..])
  }

  lemma {:induction false} CountedOneMore(rows: seq<Observation>, o: Observation, routes: seq<string>)
    requires AllDifferent(routes)
    ensures Counted([o] + rows, routes) == Counted(rows, routes) + (if o.route in routes then 1 else 0)
  {
    if routes != [] {
      CountedOneMore(rows, o, routes[1..]);
      assert ([o] + rows)[1..] == rows;
      assert routes[0] !in routes[1..];
    }
  }

  lemma {:induction false} CountedNone(routes: seq<string>)
    ensures Counted([], routes) == 0
  {
    if routes != [] {
      CountedNone(routes[1..]);
    }
  }

  lemma {:induction false} CountedAll(rows: seq<Observation>, routes: seq<string>)
    requires AllDifferent(routes)
    requires forall i :: 0 <= i < |rows| ==> rows[i].route in routes
    ensures Counted(rows, routes) == |rows|
  {
    if rows == [] {
      CountedNone(routes);
    } else {
      CountedAll(rows[1..], routes);
      CountedOneMore(rows[1..], rows[0], routes);
      assert [rows[0]] + rows[1..] == rows;
    }
  }

  function SumCounts(stats: seq<StatRow>): nat {
    if stats == [] then 0 else stats[0].sampleCount + SumCounts(stats[1..])
  }

  lemma {:induction false} SumCountsIsCounted(rows: seq<Observation>, routes: seq<string>, since: int, until: int, now: int)
    ensures SumCounts(StatRows(rows, routes, since, until, now)) == Counted(rows, routes)
  {
    if routes != [] {
      SumCountsIsCounted(rows, routes[1..], since, until, now);
      assert StatRows(rows, routes, since, until, now)[1..] == StatRows(rows, routes[1..], since, until, now);
    }
  }

  ghost predicate DelaysWithin(rows: seq<Observation>, route: string, lo: int, hi: int) {
    forall i :: 0 <= i < |rows| && rows[i].route == route ==> lo <= rows[i].delay <= hi
  }

  /** A refreshed row lies within the delays it summarises: min <= avg <= max and
      min <= p50 <= p90 <= max. */
  lemma StatWithin(rows: seq<Observation>, route: string, since: int, until: int, now: int, lo: int, hi: int)
    requires Occurs(rows, route) && DelaysWithin(rows, route, lo, hi)
    ensures var s := StatFor(rows, route, since, until, now);
            && 1 <= s.sampleCount == s.avg.den && lo * s.avg.den <= s.avg.num <= hi * s.avg.den
            && s.p50.den == s.p90.den == 10 && 10 * lo <= s.p50.num <= s.p90.num <= 10 * hi
  {
    var xs := DelaysOn(rows, route);
    DelaysOnMembers(rows, route);
    DelaysOnWithin(rows, route, lo, hi);
    MeanWithinBounds(xs, lo, hi);
    PercentilesOrdered(xs, lo, hi);
  }

  lemma OccursAt(rows: seq<Observation>, i: nat)
    requires i < |rows|
    ensures Occurs(rows, rows[i].route)
  {
  }

  lemma FreshStatsPartition(rows: seq<Observation>, since: int, until: int, now: int)
    ensures var anew := StatRows(rows, RoutesIn(rows), since, until, now);
            && SumCounts(anew) == |rows|
            && Distinct(anew, RouteKey)
            && (forall i :: 0 <= i < |anew| ==> 1 <= anew[i].sampleCount && Occurs(rows, anew[i].route))
  {
    hide Occurs;
    var routes := RoutesIn(rows);
    var anew := StatRows(rows, routes, since, until, now);
    RoutesInMembers(rows);
    forall i | 0 <= i < |rows|
      ensures rows[i].route in routes
    {
      OccursAt(rows, i);
    }
    CountedAll(rows, routes);
    SumCountsIsCounted(rows, routes, since, until, now);
    forall i | 0 <= i < |anew|
      ensures anew[i].route == routes[i] && 1 <= anew[i].sampleCount
    {
      DelaysOnMembers(rows, routes[i]);
    }
  }

  /** A refresh partitions the window: one row per route that occurs in it, at least one sample
      each, all samples counted once; the other routes keep the row they had. */
  lemma RefreshPartitionsWindow(w: Warehouse, since: int, until: int, now: int)
    requires Distinct(w.stats, RouteKey)
    ensures var rows, anew := Window(w.db.observations, since), FreshStats(w, since, until, now);
            && SumCounts(anew) == |rows|
            && !Repeats(anew, RouteKey)
            && (forall i :: 0 <= i < |anew| ==> 1 <= anew[i].sampleCount)
    ensures Distinct(Refreshed(w, since, until, now).stats, RouteKey)
    ensures var rows, w' := Window(w.db.observations, since), Refreshed(w, since, until, now);
            forall r :: Lookup(w'.stats, RouteKey, r)
                     == if Occurs(rows, r) then Some(StatFor(rows, r, since, until, now))
                        else Lookup(w.stats, RouteKey, r)
  {
    hide StatFor, Window, RoutesIn, SumCounts, Counted, PutAll, Lookup, Occurs;
    var rows, anew := Window(w.db.observations, since), FreshStats(w, since, until, now);
    FreshStatsPartition(rows, since, until, now);
    PutAllDistinct(w.stats, RouteKey, anew);
    forall r
      ensures Lookup(Refreshed(w, since, until, now).stats, RouteKey, r)
           == if Occurs(rows, r) then Some(StatFor(rows, r, since, until, now)) else Lookup(w.stats, RouteKey, r)
    {
      RefreshedRoute(w, rows, r, since, until, now);
    }
  }

  lemma RefreshedRoute(w: Warehouse, rows: seq<Observation>, r: string, since: int, until: int, now: int)
    requires Distinct(w.stats, RouteKey) && rows == Window(w.db.observations, since)
    ensures Lookup(Refreshed(w, since, until, now).stats, RouteKey, r)
         == if Occurs(rows, r) then Some(StatFor(rows, r, since, until, now)) else Lookup(w.stats, RouteKey, r)
  {
    hide Window, RoutesIn, PutAll, Lookup, Occurs, DelaysOn, SumCounts, PercentileTimes10, Sum;
    var anew := FreshStats(w, since, until, now);
    FreshStatsPartition(rows, since, until, now);
    RoutesInMembers(rows);
    if Occurs(rows, r) {
      var j :| 0 <= j < |RoutesIn(rows)| && RoutesIn(rows)[j] == r;
      assert anew[j] == StatFor(rows, r, since, until, now);
      PutAllLast(w.stats, RouteKey, anew, j);
    } else {
      PutAllElsewhere(w.stats, RouteKey, anew, r);
    }
  }

  // ---------------------------------------------------------------- the feature SELECT

  function NonNull(xs: seq<Option<real>>): seq<real> {
    if xs == [] then []
    else (if xs[0].Some? then [xs[0].value] else []) + NonNull(xs[1..])
  }

  function SumReal(xs: seq<real>): real {
    if xs == [] then 0.0 else xs[0] + SumReal(xs[1..])
  }

  /** AVG over a nullable column: NULL if no value is present. */
  function Avg(xs: seq<Option<real>>): Option<real> {
    var ys := NonNull(xs);
    if ys == [] then None else Some(SumReal(ys) / (|ys| as real))
  }

  /** observed_at BETWEEN d.observed_at - 90 minutes AND d.observed_at + 30 minutes. */
  function Nearby(weather: seq<WeatherRow>, at: int): seq<WeatherRow> {
    if weather == [] then []
    else (if at - 5400 <= weather[0].observedAt <= at + 1800 then [weather[0]] else [])
         + Nearby(weather[1..], at)
  }

  /** One result row: observation d, at most one holiday, the weather aggregate, at most one stat. */
  function FeatureRow(d: Observation, h: Option<Holiday>, wx: seq<WeatherRow>, rs: Option<StatRow>,
                      now: int): Feature
  {
    Feature(d.id, d.route, d.trip, d.stop, d.observedAt, d.day, d.hour, d.dow,
            d.dow == 5 || d.dow == 6, h.Some?, MonthOf(d.day),
            Avg(seq(|wx|, i requires 0 <= i < |wx| => wx[i].airTemp)),
            Avg(seq(|wx|, i requires 0 <= i < |wx| => wx[i].rainfall)),
            Avg(seq(|wx|, i requires 0 <= i < |wx| => wx[i].humidity)),
            if rs.Some? then Some(rs.value.avg) else None,
            if rs.Some? then Some(rs.value.p50) else None,
            if rs.Some? then Some(rs.value.p90) else None,
            d.delay, now)
  }

  /** LEFT JOIN: the matches, or one NULL row. */
  function OrNull<T>(matches: seq<T>): seq<Option<T>> {
    if matches == [] then [None] else seq(|matches|, i requires 0 <= i < |matches| => Some(matches[i]))
  }

  function WithStats(d: Observation, h: Option<Holiday>, wx: seq<WeatherRow>, stats: seq<Option<StatRow>>,
                     now: int): seq<Feature>
  {
    if stats == [] then [] else [FeatureRow(d, h, wx, stats[0], now)] + WithStats(d, h, wx, stats[1..], now)
  }

  function WithHolidays(d: Observation, holidays: seq<Option<Holiday>>, wx: seq<WeatherRow>,
                        stats: seq<Option<StatRow>>, now: int): seq<Feature>
  {
    if holidays == [] then []
    else WithStats(d, holidays[0], wx, stats, now) + WithHolidays(d, holidays[1..], wx, stats, now)
  }

  /** The result rows of one observation: every combination the three joins allow. */
  function JoinedRows(w: Warehouse, d: Observation, now: int): seq<Feature> {
    WithHolidays(d, OrNull(Select(w.holidays, DateKey, d.day)), Nearby(w.weather, d.observedAt),
                 OrNull(Select(w.stats, RouteKey, d.route)), now)
  }

  function SelectFeatures(w: Warehouse, rows: seq<Observation>, now: int): seq<Feature> {
    if rows == [] then []
    else JoinedRows(w, rows[0], now) + SelectFeatures(w, rows[1..], now)
  }

  /** The direct join: look the holiday and the statistics up by key. */
  function DirectJoin(w: Warehouse, d: Observation, now: int): Feature {
    FeatureRow(d, Lookup(w.holidays, DateKey, d.day), Nearby(w.weather, d.observedAt),
               Lookup(w.stats, RouteKey, d.route), now)
  }

  function DirectJoins(w: Warehouse, rows: seq<Observation>, now: int): (r: seq<Feature>)
    ensures |r| == |rows|
    ensures forall i :: 0 <= i < |rows| ==> r[i] == DirectJoin(w, rows[i], now)
  {
    seq(|rows|, i requires 0 <= i < |rows| => DirectJoin(w, rows[i], now))
  }

  ghost predicate KeysHold(w: Warehouse) {
    Distinct(w.holidays, DateKey) && Distinct(w.stats, RouteKey)
  }

  lemma OneCombination(d: Observation, h: Option<Holiday>, wx: seq<WeatherRow>, rs: Option<StatRow>, now: int)
    ensures WithHolidays(d, [h], wx, [rs], now) == [FeatureRow(d, h, wx, rs, now)]
  {
    hide FeatureRow;
    assert [rs][1..] == [] && [h][1..] == [];
    assert WithStats(d, h, wx, [rs], now) == [FeatureRow(d, h, wx, rs, now)] + WithStats(d, h, wx, [], now);
    assert WithHolidays(d, [h], wx, [rs], now)
        == WithStats(d, h, wx, [rs], now) + WithHolidays(d, [], wx, [rs], now);
  }

  lemma OneOrNull<V, K>(table: seq<V>, key: V -> K, k: K)
    requires Distinct(table, key)
    ensures OrNull(Select(table, key, k)) == [Lookup(table, key, k)]
  {
    hide Distinct, Select;
    SelectIsFind(table, key, k);
  }

  lemma JoinedRowsIsDirect(w: Warehouse, d: Observation, now: int)
    requires KeysHold(w)
    ensures JoinedRows(w, d, now) == [DirectJoin(w, d, now)]
  {
    hide FeatureRow, Nearby, Distinct, Select, Lookup, OrNull, WithHolidays;
    OneOrNull(w.holidays, DateKey, d.day);
    OneOrNull(w.stats, RouteKey, d.route);
    OneCombination(d, Lookup(w.holidays, DateKey, d.day), Nearby(w.weather, d.observedAt),
                   Lookup(w.stats, RouteKey, d.route), now);
  }

  /** The SELECT gives exactly one row per in-window observation, the one of the direct join:
      holidays and statistics are joined on their primary keys, and the weather aggregate has no
      GROUP BY. */
  lemma {:induction false} OneRowPerObservation(w: Warehouse, rows: seq<Observation>, now: int)
    requires KeysHold(w)
    ensures SelectFeatures(w, rows, now) == DirectJoins(w, rows, now)
  {
    hide DirectJoin, JoinedRows, KeysHold;
    if rows != [] {
      OneRowPerObservation(w, rows[1..], now);
      JoinedRowsIsDirect(w, rows[0], now);
      DirectJoinsUnfold(w, rows, now);
    }
  }

  lemma DirectJoinsUnfold(w: Warehouse, rows: seq<Observation>, now: int)
    requires rows != []
    ensures DirectJoins(w, rows, now) == [DirectJoin(w, rows[0], now)] + DirectJoins(w, rows[1..], now)
  {
    hide DirectJoin;
  }

  // ---------------------------------------------------------------- the feature upsert

  /** DO UPDATE SET of the derived columns and the label; the other columns keep their first value. */
  function Merge(f: Feature, new_: Feature): Feature {
    f.(isHoliday := new_.isHoliday, airTemp := new_.airTemp, rainfall := new_.rainfall,
       humidity := new_.humidity, routeAvg := new_.routeAvg, routeP50 := new_.routeP50,
       routeP90 := new_.routeP90, delay := new_.delay, materializedAt := new_.materializedAt)
  }

  function PutFeature(features: map<nat, Feature>, f: Feature): map<nat, Feature> {
    var id := f.observationId;
    features[id := if id in features then Merge(features[id], f) else f]
  }

  function PutFeatures(features: map<nat, Feature>, rows: seq<Feature>): map<nat, Feature>
    decreases |rows|
  {
    if rows == [] then features
    else PutFeature(PutFeatures(features, rows[..|rows| - 1]), rows[|rows| - 1])
  }

  /** rebuild_training_features; a statement that would touch a row twice changes nothing. */
  function Rebuilt(w: Warehouse, since: int, now: int): Warehouse {
    var rows := SelectFeatures(w, Window(w.db.observations, since), now);
    if Repeats(rows, IdKey) then w else w.(features := PutFeatures(w.features, rows))
  }

  lemma {:induction false} WindowKeepsBound(table: Table, since: int, bound: int)
    requires forall i :: 0 <= i < |table| ==> bound < table[i].id
    ensures forall j :: 0 <= j < |Window(table, since)| ==> bound < Window(table, since)[j].id
  {
    if table != [] {
      WindowKeepsBound(table[1..], since, bound);
    }
  }

  lemma IdsBelowSplit(table: Table, next: nat)
    requires table != [] && IdsBelow(table, next)
    ensures IdsBelow(table[1..], next) && table[0].id < next
    ensures forall i :: 0 <= i < |table[1..]| ==> table[0].id < table[1..][i].id
  {
  }

  lemma IdsBelowCons(o: Observation, rest: Table, next: nat)
    requires IdsBelow(rest, next) && o.id < next
    requires forall j :: 0 <= j < |rest| ==> o.id < rest[j].id
    ensures IdsBelow([o] + rest, next)
  {
  }

  lemma {:induction false} WindowKeepsIdOrder(table: Table, since: int, next: nat)
    requires IdsBelow(table, next)
    ensures IdsBelow(Window(table, since), next)
  {
    if table != [] {
      hide IdsBelow;
      IdsBelowSplit(table, next);
      WindowKeepsIdOrder(table[1..], since, next);
      WindowKeepsBound(table[1..], since, table[0].id);
      IdsBelowCons(table[0], Window(table[1..], since), next);
      assert [] + Window(table[1..], since) == Window(table[1..], since);
    }
  }

  /** Hence the upsert never meets the same observation twice, and the rebuild always goes through. */
  lemma RebuildNeverTouchesTwice(w: Warehouse, since: int, now: int, next: nat)
    requires KeysHold(w) && IdsBelow(w.db.observations, next)
    ensures !Repeats(SelectFeatures(w, Window(w.db.observations, since), now), IdKey)
    ensures Rebuilt(w, since, now)
         == w.(features := PutFeatures(w.features, DirectJoins(w, Window(w.db.observations, since), now)))
  {
    var rows := Window(w.db.observations, since);
    OneRowPerObservation(w, rows, now);
    WindowKeepsIdOrder(w.db.observations, since, next);
  }

  lemma {:induction false} PutFeaturesOutside(features: map<nat, Feature>, rows: seq<Feature>, id: nat)
    requires forall i :: 0 <= i < |rows| ==> rows[i].observationId != id
    ensures id in PutFeatures(features, rows) <==> id in features
    ensures id in features ==> PutFeatures(features, rows)[id] == features[id]
    decreases |rows|
  {
    if rows != [] {
      PutFeaturesOutside(features, rows[..|rows| - 1], id);
    }
  }

  lemma {:induction false} PutFeaturesAt(features: map<nat, Feature>, rows: seq<Feature>, j: nat)
    requires j < |rows| && Distinct(rows, IdKey)
    ensures var id, r := rows[j].observationId, PutFeatures(features, rows);
            id in r && r[id] == if id in features then Merge(features[id], rows[j]) else rows[j]
    decreases |rows|
  {
    var n := |rows| - 1;
    if j == n {
      forall i | 0 <= i < n
        ensures rows[..n][i].observationId != rows[n].observationId
      {
        assert IdKey(rows[i]) != IdKey(rows[n]);
      }
      PutFeaturesOutside(features, rows[..n], rows[n].observationId);
    } else {
      PutFeaturesAt(features, rows[..n], j);
      assert IdKey(rows[j]) != IdKey(rows[n]);
    }
  }

  // ---------------------------------------------------------------- what a rebuild leaves behind

  /** The columns an existing row keeps. */
  predicate SameFirst(f: Feature, g: Feature) {
    && f.observationId == g.observationId && f.route == g.route && f.trip == g.trip && f.stop == g.stop
    && f.observedAt == g.observedAt && f.day == g.day && f.hour == g.hour && f.dow == g.dow
    && f.isWeekend == g.isWeekend && f.month == g.month
  }

  /** The columns a rebuild overwrites. */
  predicate SameDerived(f: Feature, g: Feature) {
    && f.isHoliday == g.isHoliday && f.airTemp == g.airTemp && f.rainfall == g.rainfall
    && f.humidity == g.humidity && f.routeAvg == g.routeAvg && f.routeP50 == g.routeP50
    && f.routeP90 == g.routeP90 && f.delay == g.delay && f.materializedAt == g.materializedAt
  }

  /** Observation id is in the table and no older than the cutoff. */
  ghost predicate InWindow(table: Table, since: int, id: nat) {
    exists i :: 0 <= i < |table| && table[i].id == id && since <= table[i].observedAt
  }

  /** After a rebuild every in-window observation has a feature whose holiday, weather, route-history
      and label columns are those of the direct join on the current tables; a new row equals the join
      outright, an older one keeps its identity and calendar columns; no other row is touched. */
  lemma RebuildAgreesWithJoin(w: Warehouse, since: int, now: int, next: nat)
    requires KeysHold(w) && IdsBelow(w.db.observations, next)
    ensures var w' := Rebuilt(w, since, now);
            && w' == w.(features := w'.features)
            && (forall i :: 0 <= i < |w.db.observations| && since <= w.db.observations[i].observedAt ==>
                  RebuiltRow(w, w', w.db.observations[i], now))
            && (forall id :: !InWindow(w.db.observations, since, id) ==> Untouched(w, w', id))
  {
    hide DirectJoin, RebuiltRow, Untouched;
    var table, w' := w.db.observations, Rebuilt(w, since, now);
    var rows := Window(table, since);
    RebuildNeverTouchesTwice(w, since, now, next);
    WindowMembers(table, since);
    forall i | 0 <= i < |table| && since <= table[i].observedAt
      ensures RebuiltRow(w, w', table[i], now)
    {
      assert table[i] in rows;
      var j :| 0 <= j < |rows| && rows[j] == table[i];
      RebuiltAt(w, since, now, next, j);
    }
    forall id | !InWindow(table, since, id)
      ensures Untouched(w, w', id)
    {
      RebuiltElsewhere(w, since, now, next, id);
    }
  }

  ghost predicate RebuiltRow(w: Warehouse, w': Warehouse, o: Observation, now: int) {
    && o.id in w'.features
    && SameDerived(w'.features[o.id], DirectJoin(w, o, now))
    && SameFirst(w'.features[o.id], if o.id in w.features then w.features[o.id] else DirectJoin(w, o, now))
  }

  ghost predicate Untouched(w: Warehouse, w': Warehouse, id: nat) {
    && (id in w'.features <==> id in w.features)
    && (id in w.features ==> w'.features[id] == w.features[id])
  }

  lemma JoinsAreDistinct(w: Warehouse, rows: seq<Observation>, now: int, next: nat)
    requires IdsBelow(rows, next)
    ensures Distinct(DirectJoins(w, rows, now), IdKey)
  {
  }

  lemma RebuiltAt(w: Warehouse, since: int, now: int, next: nat, j: nat)
    requires KeysHold(w) && IdsBelow(w.db.observations, next) && j < |Window(w.db.observations, since)|
    ensures RebuiltRow(w, Rebuilt(w, since, now), Window(w.db.observations, since)[j], now)
  {
    hide Avg, Nearby, Lookup, MonthOf, PutFeatures, Window;
    var rows := Window(w.db.observations, since);
    RebuildNeverTouchesTwice(w, since, now, next);
    WindowKeepsIdOrder(w.db.observations, since, next);
    JoinsAreDistinct(w, rows, now, next);
    PutFeaturesAt(w.features, DirectJoins(w, rows, now), j);
  }

  lemma RebuiltElsewhere(w: Warehouse, since: int, now: int, next: nat, id: nat)
    requires KeysHold(w) && IdsBelow(w.db.observations, next) && !InWindow(w.db.observations, since, id)
    ensures Untouched(w, Rebuilt(w, since, now), id)
  {
    hide Avg, Nearby, Lookup, MonthOf, PutFeatures;
    var rows := Window(w.db.observations, since);
    RebuildNeverTouchesTwice(w, since, now, next);
    WindowMembers(w.db.observations, since);
    forall i | 0 <= i < |rows|
      ensures rows[i].id != id
    {
      assert rows[i] in rows;
    }
    PutFeaturesOutside(w.features, DirectJoins(w, rows, now), id);
  }

  /** Rebuilding again with the same cutoff changes nothing but materialized_at. */
  lemma RebuildTwice(w: Warehouse, since: int, now: int, later: int, next: nat)
    requires KeysHold(w) && IdsBelow(w.db.observations, next)
    ensures var w1 := Rebuilt(w, since, now);
            var w2 := Rebuilt(w1, since, later);
            && w2 == w1.(features := w2.features) && w2.features.Keys == w1.features.Keys
            && (forall id :: id in w1.features ==>
                  w2.features[id] == if InWindow(w.db.observations, since, id)
                                     then w1.features[id].(materializedAt := later) else w1.features[id])
  {
    hide Rebuilt, Avg, Nearby, Lookup, MonthOf, Distinct, IdsBelow;
    var table, w1 := w.db.observations, Rebuilt(w, since, now);
    var w2 := Rebuilt(w1, since, later);
    RebuildAgreesWithJoin(w, since, now, next);
    RebuildAgreesWithJoin(w1, since, later, next);
    forall id
      ensures id in w2.features <==> id in w1.features
      ensures id in w1.features ==>
                w2.features[id] == if InWindow(table, since, id)
                                   then w1.features[id].(materializedAt := later) else w1.features[id]
    {
      if InWindow(table, since, id) {
        var i :| 0 <= i < |table| && table[i].id == id && since <= table[i].observedAt;
        assert RebuiltRow(w, w1, table[i], now) && RebuiltRow(w1, w2, table[i], later);
      } else {
        assert Untouched(w1, w2, id);
      }
    }
  }
}
