/** The two bucketed estimators of predictor.py: predict_delay (without its cache) and
    predict_with_interval. */
module Predictor {
  import opened Basics
  import opened Clock
  import opened Observations
  import opened Statistics

  /** decay is exp(-1/30); its only use is that it lies strictly between 0 and 1. */
  datatype Settings = Settings(minObservations: int, historySeconds: int, ttl: int, decay: real)

  datatype Request = Request(route: string, stop: string, target: int)

  datatype Method = MlModel | BucketMean | RouteFallback | NoData

  datatype Prediction = Prediction(route: string, stop: string, target: int, delay: int, sampleSize: nat,
                                   confidence: real, how: Method, p50: Option<int>, p90: Option<int>)

  datatype Interval = Interval(lower: int, upper: int)

  datatype IntervalPrediction = IntervalPrediction(route: string, stop: string, target: int, delay: int,
                                                   interval: Option<Interval>, how: Method,
                                                   sampleSize: nat, confidence: real)

  /** A rational number; `Round` is Python's int(round(x)). */
  datatype Ratio = Ratio(num: int, den: int) {
    function Round(): int {
      if den > 0 then RoundHalfEven(num, den) else 0
    }
  }

  // ---------------------------------------------------------------- the queries

  predicate InBucket(o: Observation, r: Request, since: int) {
    o.route == r.route && o.stop == r.stop && o.hour == HourOf(r.target) && o.dow == WeekdayOf(r.target)
    && since <= o.observedAt
  }

  predicate OnRoute(o: Observation, route: string, since: int) {
    o.route == route && since <= o.observedAt
  }

  function BucketSamples(table: Table, r: Request, since: int): seq<int> {
    if table == [] then []
    else (if InBucket(table[0], r, since) then [table[0].delay] else []) + BucketSamples(table[1..], r, since)
  }

  function RouteSamples(table: Table, route: string, since: int): seq<int> {
    if table == [] then []
    else (if OnRoute(table[0], route, since) then [table[0].delay] else []) + RouteSamples(table[1..], route, since)
  }

  datatype BucketStats = BucketStats(sampleSize: nat, mean: Ratio, p50: Option<Ratio>, p90: Option<Ratio>)

  datatype IntervalBucket = IntervalBucket(sampleSize: nat, mean: Ratio, p10: Option<Ratio>,
                                           p50: Option<Ratio>, p90: Option<Ratio>)

  /** AVG, with NULL over no rows read as 0. */
  function MeanOf(xs: seq<int>): Ratio {
    if xs == [] then Ratio(0, 1) else Ratio(Sum(xs), |xs|)
  }

  /** PERCENTILE_CONT(d / 10), NULL over no rows. */
  function PercentileOf(xs: seq<int>, d: nat): Option<Ratio>
    requires d <= 10
  {
    if xs == [] then None else Some(Ratio(PercentileTimes10(xs, d), 10))
  }

  function QueryBucketStats(table: Table, r: Request, since: int): BucketStats {
    var xs := BucketSamples(table, r, since);
    BucketStats(|xs|, MeanOf(xs), PercentileOf(xs, 5), PercentileOf(xs, 9))
  }

  function QueryBucketWithQuantiles(table: Table, r: Request, since: int): IntervalBucket {
    var xs := BucketSamples(table, r, since);
    IntervalBucket(|xs|, MeanOf(xs), PercentileOf(xs, 1), PercentileOf(xs, 5), PercentileOf(xs, 9))
  }

  function QueryRouteFallback(table: Table, route: string, since: int): BucketStats {
    var xs := RouteSamples(table, route, since);
    BucketStats(|xs|, MeanOf(xs), None, None)
  }

  // ---------------------------------------------------------------- confidence

  function Power(q: real, n: nat): real {
    if n == 0 then 1.0 else q * Power(q, n - 1)
  }

  function Confidence(decay: real, sampleSize: int): real {
    if sampleSize <= 0 then 0.0
    else if 1.0 - Power(decay, sampleSize) < 1.0 then 1.0 - Power(decay, sampleSize) else 1.0
  }

  lemma ProductPositive(a: real, b: real)
    requires 0.0 < a && 0.0 < b
    ensures 0.0 < a * b
  {
  }

  lemma ProductSmaller(q: real, x: real, y: real)
    requires q < 1.0 && 0.0 < x && y == q * x
    ensures y < x
  {
    calc {
      0.0;
    < { ProductPositive(1.0 - q, x); }
      (1.0 - q) * x;
    ==
      x - y;
    }
  }

  lemma {:induction false} PowerPositive(q: real, n: nat)
    requires 0.0 < q
    ensures 0.0 < Power(q, n)
  {
    if n > 0 {
      PowerPositive(q, n - 1);
      ProductPositive(q, Power(q, n - 1));
    }
  }

  lemma PowerUnfolds(q: real, n: nat)
    ensures Power(q, n) == if n == 0 then 1.0 else q * Power(q, n - 1)
  {
  }

  lemma PowerStep(q: real, n: nat)
    requires 0.0 < q < 1.0 && 0 < n
    ensures Power(q, n) < Power(q, n - 1)
  {
    hide Power;
    PowerPositive(q, n - 1);
    PowerUnfolds(q, n);
    ProductSmaller(q, Power(q, n - 1), Power(q, n));
  }

  lemma {:induction false} PowerShrinks(q: real, m: nat, n: nat)
    requires 0.0 < q < 1.0 && m < n
    ensures Power(q, n) < Power(q, m)
  {
    hide Power;
    PowerStep(q, n);
    if m < n - 1 {
      PowerShrinks(q, m, n - 1);
    }
  }

  /** Confidence is 0 for no sample, grows strictly with the sample and never reaches 1. */
  lemma ConfidenceGrows(decay: real, m: nat, n: nat)
    requires 0.0 < decay < 1.0 && m < n
    ensures 0.0 <= Confidence(decay, m) < Confidence(decay, n) < 1.0
  {
    hide Power;
    PowerShrinks(decay, m, n);
    PowerPositive(decay, m);
    PowerPositive(decay, n);
    PowerUnfolds(decay, 0);
    if m > 0 {
      PowerShrinks(decay, 0, m);
    }
  }

  // ---------------------------------------------------------------- predict_delay without its cache

  function FromBucket(cfg: Settings, r: Request, bucket: BucketStats): Prediction {
    Prediction(r.route, r.stop, r.target, bucket.mean.Round(), bucket.sampleSize,
               Confidence(cfg.decay, bucket.sampleSize), BucketMean,
               if bucket.p50.Some? then Some(bucket.p50.value.Round()) else None,
               if bucket.p90.Some? then Some(bucket.p90.value.Round()) else None)
  }

  function FromFallback(cfg: Settings, r: Request, fallback: BucketStats): Prediction {
    Prediction(r.route, r.stop, r.target, fallback.mean.Round(), fallback.sampleSize,
               Confidence(cfg.decay, fallback.sampleSize) * 0.5,
               if fallback.sampleSize != 0 then RouteFallback else NoData, None, None)
  }

  /** The bucket statistics come from one table version, the route fallback from another: the two
      queries are separate statements, and an ingest may commit in between. */
  function Compose(cfg: Settings, bucketTable: Table, routeTable: Table, since: int, r: Request): Prediction {
    var bucket := QueryBucketStats(bucketTable, r, since);
    if bucket.sampleSize >= cfg.minObservations then FromBucket(cfg, r, bucket)
    else FromFallback(cfg, r, QueryRouteFallback(routeTable, r.route, since))
  }

  lemma ComposeCases(cfg: Settings, t1: Table, t2: Table, since: int, r: Request)
    ensures Compose(cfg, t1, t2, since, r)
         == if QueryBucketStats(t1, r, since).sampleSize >= cfg.minObservations
            then FromBucket(cfg, r, QueryBucketStats(t1, r, since))
            else FromFallback(cfg, r, QueryRouteFallback(t2, r.route, since))
  {
  }

  /** Both queries on one and the same table. */
  function Uncached(cfg: Settings, table: Table, since: int, r: Request): Prediction {
    Compose(cfg, table, table, since, r)
  }

  /** When the bucket was too small at the first query, the reply is what the later table alone
      would have given exactly when the bucket is still too small in it. */
  lemma ComposeIsUncachedIff(cfg: Settings, t1: Table, t2: Table, since: int, r: Request)
    requires |BucketSamples(t1, r, since)| < cfg.minObservations
    ensures Compose(cfg, t1, t2, since, r) == Uncached(cfg, t2, since, r)
            <==> |BucketSamples(t2, r, since)| < cfg.minObservations
  {
  }

  // ---------------------------------------------------------------- predict_with_interval

  datatype Condition = Clear | LightRain | HeavyRain | Unknown

  /** _weather_condition_for. */
  function WeatherConditionFor(rainfall: Option<real>): Condition {
    if rainfall.None? then Unknown
    else if rainfall.value > 2.0 then HeavyRain
    else if rainfall.value > 0.2 then LightRain
    else Clear
  }

  datatype ModelInput = ModelInput(route: string, stop: string, hour: int, dow: int, weather: Condition)

  /** predict_single of a loaded pipeline: any function of the five features. */
  type Model = ModelInput -> Ratio

  function InputFor(r: Request, rainfall: Option<real>): ModelInput {
    ModelInput(r.route, r.stop, HourOf(r.target), WeekdayOf(r.target), WeatherConditionFor(rainfall))
  }

  function IntervalFor(cfg: Settings, bucket: IntervalBucket): Option<Interval> {
    if bucket.sampleSize >= cfg.minObservations && bucket.p10.Some? && bucket.p90.Some?
    then Some(Interval(bucket.p10.value.Round(), bucket.p90.value.Round()))
    else None
  }

  function PredictWithInterval(cfg: Settings, table: Table, since: int, r: Request,
                               model: Option<Model>, rainfall: Option<real>): IntervalPrediction
  {
    var bucket := QueryBucketWithQuantiles(table, r, since);
    if model.Some? && bucket.sampleSize >= cfg.minObservations then
      var point := model.value(InputFor(r, rainfall));
      IntervalPrediction(r.route, r.stop, r.target, point.Round(), IntervalFor(cfg, bucket), MlModel,
                         bucket.sampleSize, Confidence(cfg.decay, bucket.sampleSize))
    else if bucket.sampleSize >= cfg.minObservations then
      IntervalPrediction(r.route, r.stop, r.target, bucket.mean.Round(), IntervalFor(cfg, bucket), BucketMean,
                         bucket.sampleSize, Confidence(cfg.decay, bucket.sampleSize))
    else
      var fallback := QueryRouteFallback(table, r.route, since);
      IntervalPrediction(r.route, r.stop, r.target, fallback.mean.Round(), None,
                         if fallback.sampleSize != 0 then RouteFallback else NoData,
                         fallback.sampleSize, Confidence(cfg.decay, fallback.sampleSize) * 0.5)
  }

  /** Without a model the two estimators agree on every table and for every threshold. */
  lemma EstimatorsAgree(cfg: Settings, table: Table, since: int, r: Request, rainfall: Option<real>)
    ensures var p, q := Uncached(cfg, table, since, r), PredictWithInterval(cfg, table, since, r, None, rainfall);
            p.delay == q.delay && p.how == q.how && p.sampleSize == q.sampleSize
            && p.confidence == q.confidence && p.route == q.route && p.stop == q.stop && p.target == q.target
  {
  }

  /** A model replaces the point estimate of a full bucket by its own rounded answer, and nothing else. */
  lemma ModelChangesOnlyThePoint(cfg: Settings, table: Table, since: int, r: Request,
                                 model: Model, rainfall: Option<real>)
    ensures var p, q := PredictWithInterval(cfg, table, since, r, Some(model), rainfall),
                        PredictWithInterval(cfg, table, since, r, None, rainfall);
            var m := model(InputFor(r, rainfall));
            if |BucketSamples(table, r, since)| >= cfg.minObservations
            then p == q.(delay := p.delay, how := MlModel) && q.how == BucketMean
                 && (m.den > 0 ==> IsNearestEven(m.num, m.den, p.delay))
            else p == q
  {
    hide BucketSamples, RouteSamples, RoundHalfEven, IsNearestEven;
    var m := model(InputFor(r, rainfall));
    if m.den > 0 {
      RoundingIsNearestEven(m.num, m.den, RoundHalfEven(m.num, m.den));
    }
  }

  lemma {:induction false} BucketWithinRoute(table: Table, r: Request, since: int)
    ensures multiset(BucketSamples(table, r, since)) <= multiset(RouteSamples(table, r.route, since))
    ensures |BucketSamples(table, r, since)| <= |RouteSamples(table, r.route, since)|
  {
    if table != [] {
      BucketWithinRoute(table[1..], r, since);
    }
  }

  lemma {:induction false} RouteSamplesEmptyIff(table: Table, route: string, since: int)
    ensures RouteSamples(table, route, since) == [] <==>
            forall i :: 0 <= i < |table| ==> !OnRoute(table[i], route, since)
  {
    if table != [] {
      RouteSamplesEmptyIff(table[1..], route, since);
      if RouteSamples(table, route, since) == [] {
        forall i | 0 <= i < |table|
          ensures !OnRoute(table[i], route, since)
        {
          assert i > 0 ==> table[i] == table[1..][i - 1];
        }
      } else if !OnRoute(table[0], route, since) {
        var i :| 0 <= i < |table[1..]| && OnRoute(table[1..][i], route, since);
        assert OnRoute(table[i + 1], route, since);
      }
    }
  }

  /** no_data is answered exactly when a positive threshold meets a route without any observation
      in the window. */
  lemma NoDataIff(cfg: Settings, table: Table, since: int, r: Request)
    ensures Uncached(cfg, table, since, r).how == NoData <==>
            cfg.minObservations >= 1 && forall i :: 0 <= i < |table| ==> !OnRoute(table[i], r.route, since)
  {
    BucketWithinRoute(table, r, since);
    RouteSamplesEmptyIff(table, r.route, since);
  }

  /** The sample the point estimate is computed from. */
  function SampleFor(cfg: Settings, table: Table, since: int, r: Request): seq<int> {
    var bucket := BucketSamples(table, r, since);
    if |bucket| >= cfg.minObservations then bucket else RouteSamples(table, r.route, since)
  }

  /** A point estimate reports the size of the sample it was computed from, lies between that
      sample's least and greatest delay after rounding, and is 0 for an empty one; so does the point
      of the interval variant without a model. */
  lemma PointWithinSample(cfg: Settings, table: Table, since: int, r: Request, rainfall: Option<real>,
                          lo: int, hi: int)
    requires forall i :: 0 <= i < |SampleFor(cfg, table, since, r)| ==> lo <= SampleFor(cfg, table, since, r)[i] <= hi
    ensures var xs, p := SampleFor(cfg, table, since, r), Uncached(cfg, table, since, r);
            p.sampleSize == |xs| && if xs != [] then lo <= p.delay <= hi else p.delay == 0
    ensures var xs, q := SampleFor(cfg, table, since, r), PredictWithInterval(cfg, table, since, r, None, rainfall);
            q.sampleSize == |xs| && if xs != [] then lo <= q.delay <= hi else q.delay == 0
  {
    hide BucketSamples, RouteSamples, PercentileTimes10, Confidence, RoundHalfEven, Sum;
    var xs := SampleFor(cfg, table, since, r);
    assert RoundHalfEven(0, 1) == 0 by { RoundingRespectsIntegers(0, 1, 0); }
    if xs != [] {
      MeanWithinBounds(xs, lo, hi);
    }
    PointIsRoundedMean(cfg, table, since, r);
    EstimatorsAgree(cfg, table, since, r, rainfall);
  }

  lemma PointIsRoundedMean(cfg: Settings, table: Table, since: int, r: Request)
    ensures var xs, p := SampleFor(cfg, table, since, r), Uncached(cfg, table, since, r);
            p.sampleSize == |xs| && p.delay == MeanOf(xs).Round()
  {
    hide BucketSamples, RouteSamples, PercentileTimes10, Confidence, RoundHalfEven, Sum;
  }

  /** The interval is present exactly for a non-empty bucket that reaches the threshold; it then
      encloses the rounded median, and of the N bucket samples at least (4N - 8) / 5. */
  lemma IntervalEncloses(cfg: Settings, table: Table, since: int, r: Request,
                         model: Option<Model>, rainfall: Option<real>)
    ensures var xs, q := BucketSamples(table, r, since), PredictWithInterval(cfg, table, since, r, model, rainfall);
            && (q.interval.Some? <==> |xs| >= cfg.minObservations && xs != [])
            && (q.interval.Some? ==>
                  q.interval.value.lower <= PercentileOf(xs, 5).value.Round() <= q.interval.value.upper
                  && 5 * CountIn(xs, q.interval.value.lower, q.interval.value.upper) >= 4 * |xs| - 8)
  {
    hide BucketSamples, RouteSamples, PercentileTimes10, RoundHalfEven, CountIn, Confidence, Sum;
    var xs := BucketSamples(table, r, since);
    if xs != [] {
      MedianEnclosed(xs);
      CoverageLowerBound(xs);
    }
  }
}
