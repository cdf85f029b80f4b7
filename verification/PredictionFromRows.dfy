/** What the estimators of Predictor answer, stated from the rows of delay_observations alone. */
module PredictionFromRows {
  import opened Basics
  import opened Clock
  import opened Observations
  import opened Statistics
  import opened Predictor

  // ---------------------------------------------------------------- the samples

  /** The rows of the (route, stop, hour, weekday) bucket in the window that report delay d. */
  ghost function BucketRows(table: Table, r: Request, since: int, d: int): set<int> {
    set i | 0 <= i < |table| && table[i].route == r.route && table[i].stop == r.stop
            && table[i].hour == HourOf(r.target) && table[i].dow == WeekdayOf(r.target)
            && since <= table[i].observedAt && table[i].delay == d
  }

  ghost function RouteRows(table: Table, route: string, since: int, d: int): set<int> {
    set i | 0 <= i < |table| && table[i].route == route && since <= table[i].observedAt && table[i].delay == d
  }

  ghost predicate IsBucketSample(xs: seq<int>, table: Table, r: Request, since: int) {
    forall d :: multiset(xs)[d] == |BucketRows(table, r, since, d)|
  }

  ghost predicate IsRouteSample(ys: seq<int>, table: Table, route: string, since: int) {
    forall d :: multiset(ys)[d] == |RouteRows(table, route, since, d)|
  }

  lemma {:induction false} BucketSamplesAppend(a: Table, b: Table, r: Request, since: int)
    ensures BucketSamples(a + b, r, since) == BucketSamples(a, r, since) + BucketSamples(b, r, since)
  {
    if a == [] {
      assert a + b == b;
    } else {
      hide InBucket;
      assert (a + b)[0] == a[0] && (a + b)[1..] == a[1..] + b;
      BucketSamplesAppend(a[1..], b, r, since);
      Regroup(if InBucket(a[0], r, since) then [a[0].delay] else [], BucketSamples(a[1..], r, since),
              BucketSamples(b, r, since));
    }
  }

  lemma {:induction false} RouteSamplesAppend(a: Table, b: Table, route: string, since: int)
    ensures RouteSamples(a + b, route, since) == RouteSamples(a, route, since) + RouteSamples(b, route, since)
  {
    if a == [] {
      assert a + b == b;
    } else {
      hide OnRoute;
      assert (a + b)[0] == a[0] && (a + b)[1..] == a[1..] + b;
      RouteSamplesAppend(a[1..], b, route, since);
      Regroup(if OnRoute(a[0], route, since) then [a[0].delay] else [], RouteSamples(a[1..], route, since),
              RouteSamples(b, route, since));
    }
  }

  lemma Regroup(a: seq<int>, b: seq<int>, c: seq<int>)
    ensures a + (b + c) == (a + b) + c
  {
  }

  lemma OneBucketRow(o: Observation, r: Request, since: int)
    ensures BucketSamples([o], r, since)
         == if o.route == r.route && o.stop == r.stop && o.hour == HourOf(r.target) && o.dow == WeekdayOf(r.target)
               && since <= o.observedAt then [o.delay] else []
  {
    assert [o][1..] == [];
  }

  lemma OneRouteRow(o: Observation, route: string, since: int)
    ensures RouteSamples([o], route, since) == if o.route == route && since <= o.observedAt then [o.delay] else []
  {
    assert [o][1..] == [];
  }

  lemma BucketRowsStep(table: Table, r: Request, since: int, d: int)
    requires table != []
    ensures var n := |table| - 1;
            |BucketRows(table, r, since, d)| == |BucketRows(table[..n], r, since, d)|
              + (if table[n].route == r.route && table[n].stop == r.stop && table[n].hour == HourOf(r.target)
                    && table[n].dow == WeekdayOf(r.target) && since <= table[n].observedAt && table[n].delay == d
                 then 1 else 0)
  {
    hide HourOf, WeekdayOf;
    var n := |table| - 1;
    var before, all := BucketRows(table[..n], r, since, d), BucketRows(table, r, since, d);
    assert all == if n in all then before + {n} else before;
  }

  lemma RouteRowsStep(table: Table, route: string, since: int, d: int)
    requires table != []
    ensures var n := |table| - 1;
            |RouteRows(table, route, since, d)| == |RouteRows(table[..n], route, since, d)|
              + (if table[n].route == route && since <= table[n].observedAt && table[n].delay == d then 1 else 0)
  {
    var n := |table| - 1;
    var before, all := RouteRows(table[..n], route, since, d), RouteRows(table, route, since, d);
    assert all == if n in all then before + {n} else before;
  }

  /** The bucket query samples each row of its route, stop, hour, weekday and window once, and no other. */
  lemma {:induction false} BucketSampleIsRows(table: Table, r: Request, since: int)
    ensures IsBucketSample(BucketSamples(table, r, since), table, r, since)
    decreases |table|
  {
    hide BucketSamples, HourOf, WeekdayOf;
    if table == [] {
      assert BucketSamples(table, r, since) == [] by { NoRows(r, since); }
      assert forall d :: BucketRows(table, r, since, d) == {};
    } else {
      var n := |table| - 1;
      BucketSampleIsRows(table[..n], r, since);
      BucketSamplesAppend(table[..n], [table[n]], r, since);
      OneBucketRow(table[n], r, since);
      assert table == table[..n] + [table[n]];
      forall d
        ensures multiset(BucketSamples(table, r, since))[d] == |BucketRows(table, r, since, d)|
      {
        BucketRowsStep(table, r, since, d);
      }
    }
  }

  lemma NoRows(r: Request, since: int)
    ensures BucketSamples([], r, since) == [] && RouteSamples([], r.route, since) == []
  {
  }

  /** The fallback query samples each row of its route and window once, and no other. */
  lemma {:induction false} RouteSampleIsRows(table: Table, r: Request, since: int)
    ensures IsRouteSample(RouteSamples(table, r.route, since), table, r.route, since)
    decreases |table|
  {
    hide RouteSamples;
    if table == [] {
      assert RouteSamples(table, r.route, since) == [] by { NoRows(r, since); }
      assert forall d :: RouteRows(table, r.route, since, d) == {};
    } else {
      var n := |table| - 1;
      RouteSampleIsRows(table[..n], r, since);
      RouteSamplesAppend(table[..n], [table[n]], r.route, since);
      OneRouteRow(table[n], r.route, since);
      assert table == table[..n] + [table[n]];
      forall d
        ensures multiset(RouteSamples(table, r.route, since))[d] == |RouteRows(table, r.route, since, d)|
      {
        RouteRowsStep(table, r.route, since, d);
      }
    }
  }

  // ---------------------------------------------------------------- predict_delay

  ghost predicate IsMean(xs: seq<int>, rounded: int) {
    if xs == [] then rounded == 0 else IsNearestEven(Sum(xs), |xs|, rounded)
  }

  /** The d-th decile of a sample, rounded; none of an empty one. */
  ghost predicate IsDecile(xs: seq<int>, d: nat, rounded: Option<int>)
    requires d <= 10
  {
    if xs == [] then rounded == None
    else rounded.Some? && IsNearestEven(PercentileTimes10(xs, d), 10, rounded.value)
  }

  /** The reply for bucket sample xs and route sample ys. */
  ghost predicate ReplyFor(cfg: Settings, r: Request, xs: seq<int>, ys: seq<int>, p: Prediction) {
    && p.route == r.route && p.stop == r.stop && p.target == r.target
    && if |xs| >= cfg.minObservations then
         && p.how == BucketMean && p.sampleSize == |xs| && p.confidence == 1.0 - Power(cfg.decay, |xs|)
         && IsMean(xs, p.delay) && IsDecile(xs, 5, p.p50) && IsDecile(xs, 9, p.p90)
       else
         && p.how == (if ys == [] then NoData else RouteFallback) && p.sampleSize == |ys|
         && p.confidence == (1.0 - Power(cfg.decay, |ys|)) / 2.0
         && IsMean(ys, p.delay) && p.p50 == None && p.p90 == None
  }

  lemma ConfidenceIs(decay: real, n: nat)
    requires 0.0 < decay < 1.0
    ensures Confidence(decay, n) == 1.0 - Power(decay, n)
  {
    PowerPositive(decay, n);
  }

  lemma MeanIsRounded(xs: seq<int>)
    ensures IsMean(xs, MeanOf(xs).Round())
  {
    hide Sum, RoundHalfEven;
    if xs == [] {
      RoundingRespectsIntegers(0, 1, 0);
    } else {
      RoundingIsNearestEven(Sum(xs), |xs|, RoundHalfEven(Sum(xs), |xs|));
    }
  }

  lemma DecileIsRounded(xs: seq<int>, d: nat)
    requires d <= 10
    ensures var q := PercentileOf(xs, d); IsDecile(xs, d, if q.Some? then Some(q.value.Round()) else None)
  {
    hide PercentileTimes10, RoundHalfEven;
    if xs != [] {
      RoundingIsNearestEven(PercentileTimes10(xs, d), 10, RoundHalfEven(PercentileTimes10(xs, d), 10));
    }
  }

  lemma BucketReply(cfg: Settings, table: Table, since: int, r: Request)
    requires 0.0 < cfg.decay < 1.0
    ensures ReplyFor(cfg, r, BucketSamples(table, r, since), RouteSamples(table, r.route, since),
                     Uncached(cfg, table, since, r))
  {
    hide BucketSamples, RouteSamples, MeanOf, PercentileOf, IsMean, IsDecile, Confidence, Power;
    var xs, ys := BucketSamples(table, r, since), RouteSamples(table, r.route, since);
    ConfidenceIs(cfg.decay, |xs|);
    ConfidenceIs(cfg.decay, |ys|);
    MeanIsRounded(xs);
    MeanIsRounded(ys);
    DecileIsRounded(xs, 5);
    DecileIsRounded(xs, 9);
  }

  /** Two samples of the same rows are permutations of each other. */
  lemma BucketSamplePermutes(table: Table, r: Request, since: int, xs: seq<int>)
    requires IsBucketSample(xs, table, r, since)
    ensures multiset(xs) == multiset(BucketSamples(table, r, since))
  {
    hide BucketSamples;
    BucketSampleIsRows(table, r, since);
    var ys := BucketSamples(table, r, since);
    assert forall d :: multiset(xs)[d] == multiset(ys)[d];
  }

  lemma RouteSamplePermutes(table: Table, r: Request, since: int, ys: seq<int>)
    requires IsRouteSample(ys, table, r.route, since)
    ensures multiset(ys) == multiset(RouteSamples(table, r.route, since))
  {
    hide RouteSamples;
    RouteSampleIsRows(table, r, since);
    var zs := RouteSamples(table, r.route, since);
    assert forall d :: multiset(ys)[d] == multiset(zs)[d];
  }

  lemma DecilesPermute(xs: seq<int>, ys: seq<int>, d: nat, rounded: Option<int>)
    requires multiset(xs) == multiset(ys) && d <= 10
    ensures IsDecile(xs, d, rounded) <==> IsDecile(ys, d, rounded)
    ensures forall m :: IsMean(xs, m) <==> IsMean(ys, m)
    ensures |xs| == |ys|
  {
    hide PercentileTimes10, IsNearestEven, Sum;
    SamplesPermute(xs, ys);
  }

  /** The reply is the one for any sequences that list the delays of the bucket's rows and of the
      route's rows. */
  ghost predicate RepliesFromRows(cfg: Settings, table: Table, since: int, r: Request, p: Prediction) {
    0.0 < cfg.decay < 1.0 ==>
      forall xs, ys :: IsBucketSample(xs, table, r, since) && IsRouteSample(ys, table, r.route, since) ==>
        ReplyFor(cfg, r, xs, ys, p)
  }

  lemma UncachedFromRows(cfg: Settings, table: Table, since: int, r: Request)
    ensures RepliesFromRows(cfg, table, since, r, Uncached(cfg, table, since, r))
  {
    hide BucketSamples, RouteSamples, IsBucketSample, IsRouteSample, Uncached, IsDecile, IsMean, Power;
    if 0.0 < cfg.decay < 1.0 {
      BucketReply(cfg, table, since, r);
      var p := Uncached(cfg, table, since, r);
      forall xs, ys | IsBucketSample(xs, table, r, since) && IsRouteSample(ys, table, r.route, since)
        ensures ReplyFor(cfg, r, xs, ys, p)
      {
        BucketSamplePermutes(table, r, since, xs);
        RouteSamplePermutes(table, r, since, ys);
        DecilesPermute(xs, BucketSamples(table, r, since), 5, p.p50);
        DecilesPermute(xs, BucketSamples(table, r, since), 9, p.p90);
        DecilesPermute(ys, RouteSamples(table, r.route, since), 5, None);
        EmptyPermutes(ys, RouteSamples(table, r.route, since));
      }
    }
  }

  lemma EmptyPermutes(xs: seq<int>, ys: seq<int>)
    requires |xs| == |ys|
    ensures xs == [] <==> ys == []
  {
  }

  /** A row of another route, stop, hour or weekday, or from before the window, wherever it stands in
      the table, never changes a reply computed from a bucket. */
  lemma OtherRowsDoNotMatter(cfg: Settings, a: Table, o: Observation, b: Table, since: int, r: Request)
    requires o.route != r.route || o.stop != r.stop || o.hour != HourOf(r.target) || o.dow != WeekdayOf(r.target)
             || o.observedAt < since
    requires Uncached(cfg, a + b, since, r).how == BucketMean
    ensures Uncached(cfg, a + [o] + b, since, r) == Uncached(cfg, a + b, since, r)
  {
    hide HourOf, WeekdayOf, BucketSamples, RouteSamples, MeanOf, PercentileOf, Confidence;
    BucketSamplesAppend(a + [o], b, r, since);
    BucketSamplesAppend(a, [o], r, since);
    BucketSamplesAppend(a, b, r, since);
    OneBucketRow(o, r, since);
    assert BucketSamples(a, r, since) + [] == BucketSamples(a, r, since);
  }

  // ---------------------------------------------------------------- predict_with_interval

  /** The weather category of a reading, by its two thresholds in millimetres. */
  ghost predicate IsCondition(rainfall: Option<real>, c: Condition) {
    match rainfall
    case None => c == Unknown
    case Some(mm) => (c == HeavyRain <==> mm > 2.0) && (c == LightRain <==> 0.2 < mm <= 2.0) && (c == Clear <==> mm <= 0.2)
  }

  ghost predicate IntervalReplyFor(cfg: Settings, r: Request, xs: seq<int>, ys: seq<int>, model: Option<Model>,
                                   input: ModelInput, q: IntervalPrediction)
  {
    && q.route == r.route && q.stop == r.stop && q.target == r.target
    && if |xs| >= cfg.minObservations then
         && q.how == (if model.Some? then MlModel else BucketMean) && q.sampleSize == |xs|
         && q.confidence == 1.0 - Power(cfg.decay, |xs|)
         && (if model.None? then IsMean(xs, q.delay)
             else var m := model.value(input); m.den > 0 ==> IsNearestEven(m.num, m.den, q.delay))
         && IsDecile(xs, 1, if q.interval.Some? then Some(q.interval.value.lower) else None)
         && IsDecile(xs, 9, if q.interval.Some? then Some(q.interval.value.upper) else None)
       else
         && q.how == (if ys == [] then NoData else RouteFallback) && q.sampleSize == |ys|
         && q.confidence == (1.0 - Power(cfg.decay, |ys|)) / 2.0
         && IsMean(ys, q.delay) && q.interval == None
  }

  lemma RatioIsRounded(m: Ratio)
    ensures m.den > 0 ==> IsNearestEven(m.num, m.den, m.Round())
  {
    if m.den > 0 {
      RoundingIsNearestEven(m.num, m.den, RoundHalfEven(m.num, m.den));
    }
  }

  lemma InputIs(r: Request, rainfall: Option<real>, c: Condition)
    requires IsCondition(rainfall, c)
    ensures InputFor(r, rainfall) == ModelInput(r.route, r.stop, HourOf(r.target), WeekdayOf(r.target), c)
  {
    hide HourOf, WeekdayOf;
  }

  /** The interval variant on the rows: mean, model point, p10, p90, method and confidence.  The model is
      asked about the request's route, stop, hour and weekday and the category of the rainfall. */
  lemma IntervalFromRows(cfg: Settings, table: Table, since: int, r: Request, model: Option<Model>,
                         rainfall: Option<real>, c: Condition, xs: seq<int>, ys: seq<int>)
    requires 0.0 < cfg.decay < 1.0 && IsCondition(rainfall, c)
    requires IsBucketSample(xs, table, r, since) && IsRouteSample(ys, table, r.route, since)
    ensures IntervalReplyFor(cfg, r, xs, ys, model,
                             ModelInput(r.route, r.stop, HourOf(r.target), WeekdayOf(r.target), c),
                             PredictWithInterval(cfg, table, since, r, model, rainfall))
  {
    hide BucketSamples, RouteSamples, MeanOf, PercentileOf, IsMean, IsDecile, Confidence, Power, IsBucketSample,
      IsRouteSample, HourOf, WeekdayOf, InputFor, IsCondition, IsNearestEven, RoundHalfEven;
    var bs, rs := BucketSamples(table, r, since), RouteSamples(table, r.route, since);
    InputIs(r, rainfall, c);
    ConfidenceIs(cfg.decay, |bs|);
    ConfidenceIs(cfg.decay, |rs|);
    MeanIsRounded(bs);
    MeanIsRounded(rs);
    DecileIsRounded(bs, 1);
    DecileIsRounded(bs, 9);
    if model.Some? {
      RatioIsRounded(model.value(InputFor(r, rainfall)));
    }
    BucketSamplePermutes(table, r, since, xs);
    RouteSamplePermutes(table, r, since, ys);
    var q := PredictWithInterval(cfg, table, since, r, model, rainfall);
    DecilesPermute(xs, bs, 1, if q.interval.Some? then Some(q.interval.value.lower) else None);
    DecilesPermute(xs, bs, 9, if q.interval.Some? then Some(q.interval.value.upper) else None);
    DecilesPermute(ys, rs, 5, None);
    EmptyPermutes(ys, rs);
    NoDecile(bs);
  }

  lemma NoDecile(xs: seq<int>)
    ensures PercentileOf(xs, 1).Some? <==> xs != []
    ensures PercentileOf(xs, 9).Some? <==> xs != []
  {
  }

  /** Two models that agree on that one input give the same reply. */
  lemma OnlyOneInputMatters(cfg: Settings, table: Table, since: int, r: Request, m1: Model, m2: Model,
                            rainfall: Option<real>, c: Condition)
    requires IsCondition(rainfall, c)
    requires var input := ModelInput(r.route, r.stop, HourOf(r.target), WeekdayOf(r.target), c); m1(input) == m2(input)
    ensures PredictWithInterval(cfg, table, since, r, Some(m1), rainfall)
         == PredictWithInterval(cfg, table, since, r, Some(m2), rainfall)
  {
    hide BucketSamples, RouteSamples, MeanOf, PercentileOf, Confidence, HourOf, WeekdayOf, InputFor, IsCondition;
    InputIs(r, rainfall, c);
  }
}
