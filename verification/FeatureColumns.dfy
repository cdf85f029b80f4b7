/** What a refreshed statistics row and a rebuilt feature hold, column by column, stated from the source
    tables. */
module FeatureColumns {
  import opened Basics
  import opened Calendar
  import opened Clock
  import opened Keyed
  import opened Observations
  import opened Statistics
  import opened RealtimeIngest
  import P = Predictor
  import opened PredictionFromRows
  import opened FeaturePipeline
  import opened FeatureRuns

  // ---------------------------------------------------------------- statistics rows

  lemma {:induction false} WindowDelays(table: Table, route: string, since: int)
    ensures DelaysOn(Window(table, since), route) == P.RouteSamples(table, route, since)
  {
    if table != [] {
      WindowDelays(table[1..], route, since);
      var rest := Window(table[1..], since);
      assert ([table[0]] + rest)[1..] == rest;
      assert [] + rest == rest;
    }
  }

  /** The row of a sample: its size, mean, fifth and ninth decile, and the dates of the window. */
  ghost predicate StatOf(s: StatRow, route: string, ys: seq<int>, since: int, until: int, now: int) {
    && s.route == route && s.windowStart == since / 86400 && s.windowEnd == until / 86400 && s.refreshedAt == now
    && s.sampleCount == |ys| && s.avg == P.Ratio(Sum(ys), |ys|)
    && ys != [] && s.p50 == P.Ratio(PercentileTimes10(ys, 5), 10) && s.p90 == P.Ratio(PercentileTimes10(ys, 9), 10)
  }

  /** After a refresh a route with observations in the window has the row of their delays, in whatever
      order these are listed; any other route has the row it had. */
  lemma RefreshedColumns(w: Warehouse, since: int, until: int, now: int, route: string, ys: seq<int>)
    requires Distinct(w.stats, RouteKey) && IsRouteSample(ys, w.db.observations, route, since)
    ensures var s := Lookup(Refreshed(w, since, until, now).stats, RouteKey, route);
            if ys == [] then s == Lookup(w.stats, RouteKey, route)
            else s.Some? && StatOf(s.value, route, ys, since, until, now)
  {
    hide Window, DelaysOn, PercentileTimes10, Sum, Lookup, FreshStats, Distinct, IsRouteSample;
    var table := w.db.observations;
    var rows := Window(table, since);
    var xs := DelaysOn(rows, route);
    WindowDelays(table, route, since);
    RouteSamplePermutes(table, P.Request(route, "", 0), since, ys);
    SamplesPermute(ys, xs);
    EmptyPermutes(ys, xs);
    DelaysOnMembers(rows, route);
    NoDelays(rows, route);
    RefreshedRoute(w, rows, route, since, until, now);
  }

  /** What a refresh makes of every route. */
  ghost predicate RefreshedFrom(before: Warehouse, after: seq<StatRow>, since: int, until: int, now: int) {
    Distinct(before.stats, RouteKey) ==>
      forall route, ys :: IsRouteSample(ys, before.db.observations, route, since) ==>
        var s := Lookup(after, RouteKey, route);
        if ys == [] then s == Lookup(before.stats, RouteKey, route)
        else s.Some? && StatOf(s.value, route, ys, since, until, now)
  }

  lemma RefreshFollowsRows(w: Warehouse, since: int, until: int, now: int)
    ensures RefreshedFrom(w, Refreshed(w, since, until, now).stats, since, until, now)
  {
    hide Distinct, IsRouteSample, Lookup, StatOf, Refreshed;
    if Distinct(w.stats, RouteKey) {
      forall route, ys | IsRouteSample(ys, w.db.observations, route, since)
        ensures var s := Lookup(Refreshed(w, since, until, now).stats, RouteKey, route);
                if ys == [] then s == Lookup(w.stats, RouteKey, route)
                else s.Some? && StatOf(s.value, route, ys, since, until, now)
      {
        RefreshedColumns(w, since, until, now, route, ys);
      }
    }
  }

  lemma {:induction false} NoDelays(rows: seq<Observation>, route: string)
    ensures DelaysOn(rows, route) != [] ==> Occurs(rows, route)
  {
    if rows != [] && rows[0].route != route {
      NoDelays(rows[1..], route);
      if i :| 0 <= i < |rows[1..]| && rows[1..][i].route == route {
        assert rows[i + 1].route == route;
      }
    }
  }

  // ---------------------------------------------------------------- weather columns

  datatype Column = AirTemp | Rainfall | Humidity

  function ReadingOf(r: WeatherRow, c: Column): Option<real> {
    match c
    case AirTemp => r.airTemp
    case Rainfall => r.rainfall
    case Humidity => r.humidity
  }

  function ColumnOf(f: Feature, c: Column): Option<real> {
    match c
    case AirTemp => f.airTemp
    case Rainfall => f.rainfall
    case Humidity => f.humidity
  }

  /** Number and sum of the values read from 90 minutes before to 30 minutes after. */
  function InsideCount(weather: seq<WeatherRow>, at: int, c: Column): nat {
    if weather == [] then 0
    else (if at - 5400 <= weather[0].observedAt <= at + 1800 && ReadingOf(weather[0], c).Some? then 1 else 0)
         + InsideCount(weather[1..], at, c)
  }

  function InsideSum(weather: seq<WeatherRow>, at: int, c: Column): real {
    if weather == [] then 0.0
    else (if at - 5400 <= weather[0].observedAt <= at + 1800 && ReadingOf(weather[0], c).Some?
          then ReadingOf(weather[0], c).value else 0.0)
         + InsideSum(weather[1..], at, c)
  }

  ghost predicate IsAverage(weather: seq<WeatherRow>, at: int, c: Column, v: Option<real>) {
    var n := InsideCount(weather, at, c);
    if n == 0 then v == None else v.Some? && v.value * (n as real) == InsideSum(weather, at, c)
  }

  function Readings(wx: seq<WeatherRow>, c: Column): (r: seq<Option<real>>)
    ensures |r| == |wx|
    ensures forall i :: 0 <= i < |wx| ==> r[i] == ReadingOf(wx[i], c)
  {
    seq(|wx|, i requires 0 <= i < |wx| => ReadingOf(wx[i], c))
  }

  lemma ReadingsCons(x: WeatherRow, wx: seq<WeatherRow>, c: Column)
    ensures NonNull(Readings([x] + wx, c))
         == (if ReadingOf(x, c).Some? then [ReadingOf(x, c).value] else []) + NonNull(Readings(wx, c))
  {
    hide ReadingOf;
    assert Readings([x] + wx, c) == [ReadingOf(x, c)] + Readings(wx, c);
    assert Readings([x] + wx, c)[1..] == Readings(wx, c);
  }

  lemma SumRealCons(x: real, xs: seq<real>)
    ensures SumReal([x] + xs) == x + SumReal(xs)
  {
    assert ([x] + xs)[1..] == xs;
  }

  lemma {:induction false} NearbyValues(weather: seq<WeatherRow>, at: int, c: Column)
    ensures var vs := NonNull(Readings(Nearby(weather, at), c));
            |vs| == InsideCount(weather, at, c) && SumReal(vs) == InsideSum(weather, at, c)
  {
    if weather != [] {
      hide NonNull, Readings, SumReal, ReadingOf;
      var x, rest := weather[0], Nearby(weather[1..], at);
      NearbyValues(weather[1..], at, c);
      ReadingsCons(x, rest, c);
      assert [] + rest == rest;
      var vs := NonNull(Readings(rest, c));
      assert [] + vs == vs;
      if ReadingOf(x, c).Some? {
        SumRealCons(ReadingOf(x, c).value, vs);
      }
    } else {
      assert Nearby(weather, at) == [];
      assert NonNull(Readings([], c)) == [];
    }
  }

  lemma QuotientTimes(a: real, n: real)
    requires n != 0.0
    ensures (a / n) * n == a
  {
  }

  lemma AverageIs(weather: seq<WeatherRow>, at: int, c: Column)
    ensures IsAverage(weather, at, c, Avg(Readings(Nearby(weather, at), c)))
  {
    hide NonNull, Readings, SumReal, Nearby, InsideCount, InsideSum;
    NearbyValues(weather, at, c);
    var vs := NonNull(Readings(Nearby(weather, at), c));
    if vs != [] {
      QuotientTimes(SumReal(vs), |vs| as real);
    }
  }

  lemma JoinWeather(w: Warehouse, d: Observation, now: int, c: Column)
    ensures ColumnOf(DirectJoin(w, d, now), c) == Avg(Readings(Nearby(w.weather, d.observedAt), c))
  {
    hide Avg, Nearby, Lookup, MonthOf;
    var wx := Nearby(w.weather, d.observedAt);
    assert Readings(wx, AirTemp) == seq(|wx|, i requires 0 <= i < |wx| => wx[i].airTemp);
    assert Readings(wx, Rainfall) == seq(|wx|, i requires 0 <= i < |wx| => wx[i].rainfall);
    assert Readings(wx, Humidity) == seq(|wx|, i requires 0 <= i < |wx| => wx[i].humidity);
  }

  // ---------------------------------------------------------------- a rebuilt feature

  ghost predicate OnHoliday(holidays: seq<Holiday>, day: int) {
    exists j :: 0 <= j < |holidays| && holidays[j].date == day
  }

  /** The statistics columns are those of the route's row, NULL without one. */
  ghost predicate RouteHistory(stats: seq<StatRow>, route: string, f: Feature) {
    && (forall j :: 0 <= j < |stats| && stats[j].route == route ==>
          f.routeAvg == Some(stats[j].avg) && f.routeP50 == Some(stats[j].p50) && f.routeP90 == Some(stats[j].p90))
    && ((forall j :: 0 <= j < |stats| ==> stats[j].route != route) ==>
          f.routeAvg == None && f.routeP50 == None && f.routeP90 == None)
  }

  /** The columns every rebuild writes. */
  ghost predicate DerivedFrom(w: Warehouse, o: Observation, now: int, f: Feature) {
    && (f.isHoliday <==> OnHoliday(w.holidays, o.day))
    && IsAverage(w.weather, o.observedAt, AirTemp, f.airTemp)
    && IsAverage(w.weather, o.observedAt, Rainfall, f.rainfall)
    && IsAverage(w.weather, o.observedAt, Humidity, f.humidity)
    && RouteHistory(w.stats, o.route, f)
    && f.delay == o.delay && f.materializedAt == now
  }

  /** The columns written when the row is new. */
  ghost predicate CopiedFrom(o: Observation, f: Feature) {
    && f.observationId == o.id && f.route == o.route && f.trip == o.trip && f.stop == o.stop
    && f.observedAt == o.observedAt && f.day == o.day && f.hour == o.hour && f.dow == o.dow
    && (f.isWeekend <==> o.dow == 5 || o.dow == 6)
    && 1 <= f.month <= 12 && exists year :: MonthStart(year, f.month) <= o.day < MonthStart(year, f.month + 1)
  }

  lemma LookupFinds<V, K>(table: seq<V>, key: V -> K, k: K)
    requires Distinct(table, key)
    ensures Lookup(table, key, k).Some? <==> exists j :: 0 <= j < |table| && key(table[j]) == k
    ensures forall j :: 0 <= j < |table| && key(table[j]) == k ==> Lookup(table, key, k) == Some(table[j])
  {
    var i := FindBy(table, key, k);
    if i < |table| {
      assert key(table[i]) == k;
    }
  }

  lemma JoinHoliday(w: Warehouse, d: Observation, now: int)
    requires KeysHold(w)
    ensures DirectJoin(w, d, now).isHoliday <==> OnHoliday(w.holidays, d.day)
  {
    hide Avg, Nearby, MonthOf, Lookup;
    LookupFinds(w.holidays, DateKey, d.day);
    if OnHoliday(w.holidays, d.day) {
      var j :| 0 <= j < |w.holidays| && w.holidays[j].date == d.day;
      assert DateKey(w.holidays[j]) == d.day;
    }
  }

  lemma JoinHistory(w: Warehouse, d: Observation, now: int)
    requires KeysHold(w)
    ensures RouteHistory(w.stats, d.route, DirectJoin(w, d, now))
  {
    hide Avg, Nearby, MonthOf, Lookup;
    var f := DirectJoin(w, d, now);
    LookupFinds(w.stats, RouteKey, d.route);
    forall j | 0 <= j < |w.stats| && w.stats[j].route == d.route
      ensures f.routeAvg == Some(w.stats[j].avg) && f.routeP50 == Some(w.stats[j].p50)
              && f.routeP90 == Some(w.stats[j].p90)
    {
      assert RouteKey(w.stats[j]) == d.route;
    }
  }

  lemma JoinColumns(w: Warehouse, d: Observation, now: int)
    requires KeysHold(w)
    ensures DerivedFrom(w, d, now, DirectJoin(w, d, now)) && CopiedFrom(d, DirectJoin(w, d, now))
  {
    hide CopiedFrom;
    assert DerivedFrom(w, d, now, DirectJoin(w, d, now)) by {
      hide DirectJoin, Avg, IsAverage, OnHoliday, RouteHistory, Readings;
      JoinLabel(w, d, now);
      JoinHoliday(w, d, now);
      JoinHistory(w, d, now);
      JoinWeather(w, d, now, AirTemp);
      JoinWeather(w, d, now, Rainfall);
      JoinWeather(w, d, now, Humidity);
      AverageIs(w.weather, d.observedAt, AirTemp);
      AverageIs(w.weather, d.observedAt, Rainfall);
      AverageIs(w.weather, d.observedAt, Humidity);
    }
    JoinCopies(w, d, now);
  }

  lemma JoinLabel(w: Warehouse, d: Observation, now: int)
    ensures DirectJoin(w, d, now).delay == d.delay && DirectJoin(w, d, now).materializedAt == now
  {
    hide Avg, Nearby, Lookup, MonthOf;
  }

  lemma JoinCopies(w: Warehouse, d: Observation, now: int)
    ensures CopiedFrom(d, DirectJoin(w, d, now))
  {
    hide Avg, Nearby, Lookup, MonthStart;
  }

  lemma DerivedCarries(w: Warehouse, o: Observation, now: int, f: Feature, g: Feature)
    requires DerivedFrom(w, o, now, g) && SameDerived(f, g)
    ensures DerivedFrom(w, o, now, f)
  {
    hide IsAverage, OnHoliday;
  }

  lemma CopiedCarries(o: Observation, f: Feature, g: Feature)
    requires CopiedFrom(o, g) && SameFirst(f, g)
    ensures CopiedFrom(o, f)
  {
    hide MonthStart;
  }

  /** After a rebuild every in-window observation has a feature with these columns: on a holiday if and
      only if its service date is one, the three weather averages, the route's statistics, its delay,
      and, in a new row, its own identity and calendar. */
  ghost predicate RebuiltFrom(before: Warehouse, after: map<nat, Feature>, since: int, now: int) {
    forall i :: 0 <= i < |before.db.observations| && since <= before.db.observations[i].observedAt ==>
      RowRebuiltFrom(before, after, before.db.observations[i], now)
  }

  ghost predicate RowRebuiltFrom(before: Warehouse, after: map<nat, Feature>, o: Observation, now: int) {
    && o.id in after && DerivedFrom(before, o, now, after[o.id])
    && (o.id !in before.features ==> CopiedFrom(o, after[o.id]))
    && (o.id in before.features ==> SameFirst(after[o.id], before.features[o.id]))
  }

  lemma RebuiltColumns(w: Warehouse, since: int, now: int, next: nat)
    requires KeysHold(w) && IdsBelow(w.db.observations, next)
    ensures RebuiltFrom(w, Rebuilt(w, since, now).features, since, now)
  {
    hide KeysHold, IdsBelow, Rebuilt, DirectJoin, SameFirst, SameDerived, DerivedFrom, CopiedFrom;
    RebuildAgreesWithJoin(w, since, now, next);
    var table, w' := w.db.observations, Rebuilt(w, since, now);
    forall i | 0 <= i < |table| && since <= table[i].observedAt
      ensures RowRebuiltFrom(w, w'.features, table[i], now)
    {
      var o := table[i];
      assert RebuiltRow(w, w', o, now);
      JoinColumns(w, o, now);
      DerivedCarries(w, o, now, w'.features[o.id], DirectJoin(w, o, now));
      if o.id !in w.features {
        CopiedCarries(o, w'.features[o.id], DirectJoin(w, o, now));
      }
    }
  }

  lemma {:induction false} NearbyIgnores(a: seq<WeatherRow>, x: WeatherRow, b: seq<WeatherRow>, at: int)
    requires !(at - 5400 <= x.observedAt <= at + 1800)
    ensures Nearby(a + [x] + b, at) == Nearby(a + b, at)
  {
    if a == [] {
      assert (a + [x] + b)[1..] == b && a + b == b;
      assert [] + Nearby(b, at) == Nearby(b, at);
    } else {
      NearbyIgnores(a[1..], x, b, at);
      assert (a + [x] + b)[1..] == a[1..] + [x] + b && (a + b)[1..] == a[1..] + b;
      assert (a + [x] + b)[0] == a[0] && (a + b)[0] == a[0];
    }
  }

  /** A reading outside the 90 minutes before and 30 minutes after an observation has no part in its
      feature. */
  lemma FarReadingsDoNotMatter(w: Warehouse, a: seq<WeatherRow>, x: WeatherRow, b: seq<WeatherRow>, since: int,
                               now: int, next: nat, i: nat)
    requires KeysHold(w) && IdsBelow(w.db.observations, next) && i < |w.db.observations|
    requires var at := w.db.observations[i].observedAt;
             since <= at && (x.observedAt < at - 5400 || at + 1800 < x.observedAt)
    ensures var o := w.db.observations[i];
            var with, without := Rebuilt(w.(weather := a + [x] + b), since, now), Rebuilt(w.(weather := a + b), since, now);
            o.id in with.features && o.id in without.features && with.features[o.id] == without.features[o.id]
  {
    hide IdsBelow, Rebuilt, Avg, Nearby, Lookup, MonthOf, Distinct;
    var o, w1, w2 := w.db.observations[i], w.(weather := a + [x] + b), w.(weather := a + b);
    NearbyIgnores(a, x, b, o.observedAt);
    RebuildAgreesWithJoin(w1, since, now, next);
    RebuildAgreesWithJoin(w2, since, now, next);
    assert DirectJoin(w1, o, now) == DirectJoin(w2, o, now);
    assert RebuiltRow(w1, Rebuilt(w1, since, now), o, now) && RebuiltRow(w2, Rebuilt(w2, since, now), o, now);
  }
}
