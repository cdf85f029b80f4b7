# Delay platform: verified model

This project models the stateful core of the SEQ transit delay platform and proves what it keeps over
every run. Four parts, each a state machine or a pair of a specification and the methods that carry it
out on fields in place:

* **Model cache** (`ModelCache`, `ModelLoader`). Any number of `get_model` calls, a trainer rewriting the
  artefact file and `reset_cache`, interleaved at every shared access. The version is read before the
  lock and the file after it; the theorems say what that double-checked scheme does guarantee (freshness,
  2k + 1 loads, content that never goes back) and what it does not (the version label).
* **Observations and features** (`Observations`, `RealtimeIngest`, `IngestFromMessages`, `RealtimeStore`,
  `LiveDelays`, `LiveAnswer`, `Keyed`, `FeaturePipeline`, `FeatureRuns`, `FeatureColumns`,
  `PipelineService`). Natural-key upserts, all-or-nothing feeds,
  pruning, and the materialised training table as a function of the run: identity and calendar columns
  from the first rebuild that covered an observation, the rest from the last.
* **Prediction** (`Statistics`, `Predictor`, `PredictionFromRows`, `Weather`, `PredictionKey`,
  `PredictionCache`, `PredictionService`). Interpolated percentiles and half-even rounding on exact
  rationals, the two estimators, and the Redis cache with requests and ingests interleaving at every await.
* **Static feed** (`ChunkedUpsert`, `StaticFeed`, `StaticLoad`, `StaticFromCells`, `StaticStore`). Chunked
  upserts, foreign-key order, wipe and refill, and one condition on the feed that decides whether a load goes through.

The modules named `...From...`, `FeatureColumns` and `LiveAnswer` say what an operation leaves behind from its
inputs alone: message fields, table rows or file cells, without the functions that compute it.

`Basics`, `Clock`, `Calendar` and `Counting` hold the shared result types, clock and calendar arithmetic, and
a counting lemma. Instants are whole seconds, days are counted from 1970-01-01, identifiers are strings.
A database transaction is one step; a statement that PostgreSQL refuses (a row touched twice by one `ON CONFLICT DO UPDATE`, a repeated key, an
unresolved reference) rolls its whole session back.

`dafny verify dfyconfig.toml` checks the project.

## What the proofs turned up

Where a comment and the code differ:

* `app/services/gtfs_static.py:236` says no conflict is possible after the wipe. A feed with two rows for
  one trip and sequence does conflict: `StaticLoad.RepeatedStopTimeFailsTheLoad`.
* `app/services/predictor.py:274` labels the interval 0.8. `Statistics.EightyPercentGuaranteedIff` says for
  which sample sizes that share is guaranteed.

Where a plausible property fails, with the exact condition and a run:

* Calls after a retrain pick up the new artefact, but the version label can go back and cost further
  loads: `ModelCache.LabelCanFallIff` says when, `ModelCache.LabelFallsBounded` and
  `ModelCache.BoundsAreTight` how often, `ModelCache.LabelCanGoBack` is a run.
* A rebuild brings the derived columns and the label up to date, as its docstring says. The calendar
  columns and `observed_at` of an existing row are not in its update list and stay as first materialised:
  `FeatureRuns.CurrentIff`, `FeatureRuns.CalendarColumnsCanLag`.
* A cache key names one route and stop only for ids without a colon: `PredictionKey.KeyIsExclusiveIff`,
  `PredictionCache.ColonsMixRoutes`.
* The two queries of one prediction can see two tables: `PredictionCache.ReplyIsUncachedIff`,
  `PredictionCache.QueriesCanStraddleAnIngest`.
* A slow miss can store an older value over a newer one: `PredictionCache.EntryCanGoBackIff`,
  `PredictionCache.StaleValueCanReplaceFresh`.

## Model

| member | source | states |
|---|---|---|
| `ModelCache.InvRun` | app/services/ml_inference.py:96-123 | Over every run of callers and trainer: the lock has at most one holder, the holder is the call inside the locked block, and a cached entry's content stamp is at least its version label and names an artefact written to completion. |
| `ModelCache.NeverStalerThanAsked` | app/services/ml_inference.py:51-59 | In every interleaving a call that read version v is answered with nothing or with a complete artefact written at v or later, on the fast and on the locked path. |
| `ModelCache.CacheChangesOnlyUnderLock` | app/services/ml_inference.py:101-123 | `_cache` changes only in the assignment of the call that holds the lock; a load that fails leaves the previous entry in place. |
| `ModelCache.ContentNeverGoesBack` | app/services/ml_inference.py:108-130 | The cached artefact is never followed by an older one over any run, resets included. |
| `ModelCache.LabelFallsBounded` | app/services/ml_inference.py:96-116 | Without trainer and reset the version label goes back at most once for each call that read an older version, plus once for a lock holder that has already loaded for one, over any run and any interleaving. |
| `ModelCache.LabelCanFallIff` | app/services/ml_inference.py:96-116 | At any reachable state with a whole file and a caller free to start: some run without trainer and reset lowers the label if and only if a call outside the lock waits with an older version, or the lock holder is bound to assign a label below the one in place, and reset_cache does not hold the lock. |
| `ModelCache.FreeLockFallsIffStale` | app/services/ml_inference.py:96-116 | With the lock free that is: if and only if some call in flight holds an older version. |
| `ModelCache.LabelCanGoBack` | app/services/ml_inference.py:96-116 | A run from the start in which the label falls from 4 to 2 while the artefact stays the same. |
| `ModelCache.PotentialPaysForLoad` | app/services/ml_inference.py:96-116 | Every load is paid for by a fall of the potential 2·stale + pending label; no other step raises it. |
| `ModelCache.LoadsAfterSettling` | app/services/ml_inference.py:39-59 | Once the file has settled with k calls still holding an older version, all later calls together load it at most 2k + 1 times, over any run without reset. |
| `ModelCache.BoundsAreTight` | app/services/ml_inference.py:96-116 | For every k some run from the start leaves k stale calls, and some continuation of it loads exactly 2k + 1 times and sees the label fall exactly k times: neither bound can be improved. |
| `ModelCache.SettledForGood` | app/services/ml_inference.py:96-105 | With the settled file's label installed and no call for an older version in flight, no run without trainer and reset ever reads the file again, the entry stays, and the lock is taken only by calls that were already waiting for it, once each; with none waiting, never. |
| `ModelCache.UninterruptedMiss` | app/services/ml_inference.py:96-123 | A call that misses and is not interrupted loads once and files the artefact under the version it read at its start. |
| `ModelLoader.Loader.GetModel` | app/services/ml_inference.py:39-59 | One call on the fields in place: what it answers and leaves in the cache when the file is absent, cached, loadable or torn, and that it is a run of the step system. |
| `ModelLoader.Loader.LoadUnderLock` | app/services/ml_inference.py:101-105 | The locked block entered after a miss: lock released again, entry replaced or kept. |
| `ModelLoader.Loader.LoadIntoCache` | app/services/ml_inference.py:108-123 | Loads the file into the cache under the version the call read; a file that does not load changes nothing. |
| `ModelLoader.Loader.ResetCache` | app/services/ml_inference.py:126-130 | Drops the entry under the lock, as three steps of the step system. |
| `ModelLoader.Loader.SaveModel` | app/services/ml_predictor.py:175-179 | The writer: the file is torn from the first byte until the dump is complete, then holds the new artefact. |
| `Statistics.RoundingIsNearestEven` | app/services/predictor.py:127-132 | int(round(x)) of a rational is the nearest integer, ties to the even one, and the only such integer. |
| `Statistics.CoverageLowerBound` | app/services/predictor.py:174-196 | [round(p10), round(p90)] of N integer samples holds at least floor(9(N-1)/10) - ceil((N-1)/10) + 1 of them, hence 5·count >= 4N - 8. |
| `Statistics.SpreadCoverage` | app/services/predictor.py:174-196 | That bound is attained for every N by a concrete sample. |
| `Statistics.EightyPercentGuaranteedIff` | app/services/predictor.py:265-275 | The reported level 0.8 is guaranteed for all samples of size N if and only if N ends in 0 or 1. |
| `Statistics.PercentilesOrdered` | app/services/predictor.py:42-53 | min <= p10 <= p50 <= p90 <= max of the interpolated percentiles of any non-empty sample. |
| `Statistics.MeanWithinBounds` | app/services/predictor.py:42-61 | Mean and half-even rounded mean lie between any bounds of the sample. |
| `Statistics.PercentileByRowNumber` | app/services/predictor.py:42-53 | PERCENTILE_CONT as the standard has it: the two rows around row number d/10 (N-1) of the sorted sample, weighted by their distance. |
| `Statistics.MedianIsMiddle` | app/services/predictor.py:45 | p50 is the middle of the sorted sample, or the mean of its two middle values. |
| `Clock.ClockReads` | app/services/predictor.py:105-106 | hour and weekday of an instant: the hour its clock shows, the weekday of its day, one further each day, Thursday on 1 January 1970. |
| `Predictor.ConfidenceGrows` | app/services/predictor.py:83-88 | Confidence is 0 without data, strictly increasing in the sample size and below 1. |
| `PredictionFromRows.BucketSampleIsRows` | app/services/predictor.py:47-53 | For every delay the bucket sample holds as many copies as the table has rows of that delay with the request's route, stop, hour and weekday in the window. |
| `PredictionFromRows.RouteSampleIsRows` | app/services/predictor.py:70-73 | The same of the fallback sample, by route and window. |
| `PredictionFromRows.UncachedFromRows` | app/services/predictor.py:112-144 | The uncached reply from the rows alone: for any listing of the bucket's and the route's delays, method, sample size, confidence, half-even mean, and p50 and p90 as the fifth and ninth decile. |
| `PredictionFromRows.OtherRowsDoNotMatter` | app/services/predictor.py:47-53 | A row of another route, stop, hour or weekday, or from before the window, never changes a bucket reply. |
| `PredictionFromRows.IntervalFromRows` | app/services/predictor.py:238-328 | predict_with_interval from the rows alone: p10 and p90 as first and ninth decile, the model's rounded answer about the request's route, stop, hour, weekday and weather category (thresholds 0.2 and 2.0) or the mean, method and confidence. |
| `PredictionFromRows.OnlyOneInputMatters` | app/services/predictor.py:287-294 | Two models that agree on that one input give the same reply. |
| `Predictor.BucketWithinRoute` | app/services/predictor.py:47-73 | The bucket sample is contained, with multiplicity, in the route-wide fallback sample. |
| `Predictor.NoDataIff` | app/services/predictor.py:134-144 | no_data is answered if and only if the threshold is positive and the route has no observation in the window. |
| `Predictor.PointWithinSample` | app/services/predictor.py:122-144 | A point estimate reports the size of the sample it was computed from (the bucket if it reaches the threshold, else the route) and lies between that sample's least and greatest delay after rounding; it is 0 for an empty one. The same holds of the interval variant without a model. |
| `Predictor.IntervalEncloses` | app/services/predictor.py:265-275 | The interval is present if and only if the non-empty bucket reaches the threshold; it encloses the rounded median and at least (4N - 8)/5 of the samples. |
| `Weather.DeriveWeatherCondition` | app/services/ml_predictor.py:58-69 | Three masked in-place passes label every index, missing readings included, as the serving-side scalar function does. |
| `PredictionKey.KeyText` | app/services/predictor.py:22 | The key of one request, spelled out. |
| `PredictionKey.EqualKeys` | app/services/predictor.py:22 | Two requests share a key if and only if they agree on hour, weekday and the text route:stop. |
| `PredictionKey.KeyIsExclusiveIff` | app/services/predictor.py:22 | A request shares its key with no other if and only if neither of its ids contains a colon. |
| `PredictionKey.ColonFreeRoutesDoNotCollide` | app/services/predictor.py:22 | Among route ids without a colon the key format is injective, whatever the stop ids. |
| `PredictionKey.ColonFreeStopsDoNotCollide` | app/services/predictor.py:22 | Among stop ids without a colon the key format is injective, whatever the route ids. |
| `PredictionKey.Collision` | app/services/predictor.py:22 | With a colon it is not: (a:b, c) and (a, b:c) share a key. |
| `PredictionCache.InvRun` | app/services/predictor.py:105-151 | Over every interleaving of requests, ingests and clock, each entry in Redis is filed under its own request's key and is what its two queries computed. |
| `PredictionCache.RepliesAreSound` | app/services/predictor.py:105-151 | Every reply was stored under the request's key, less than TTL seconds before it was served, and equals the uncached computation on the table versions its queries saw; for ids without a colon it is the request's own value in every field but target_time. |
| `PredictionCache.ReplyIsUncachedIff` | app/services/predictor.py:112-136 | In every run a reply is the uncached computation on the table its second query saw if and only if both queries saw that table or the bucket was still too small in it. |
| `PredictionCache.PlainIdsGetTheirOwnValues` | app/services/predictor.py:105-110 | In a run where all route ids, or all stop ids, are free of colons, every request gets its own values in every field but target_time. |
| `PredictionCache.RequestAlone` | app/services/predictor.py:105-151 | A request nobody interferes with returns a live entry and leaves Redis alone, or returns the uncached computation and stores it. |
| `PredictionCache.MissIsARun` | app/services/predictor.py:112-151 | A miss that nobody interferes with is a run of the step system: window, queries, store. |
| `PredictionCache.ColonsMixRoutes` | app/services/predictor.py:107-110 | A run in which a request is answered with another route's prediction. |
| `PredictionCache.QueriesCanStraddleAnIngest` | app/services/predictor.py:113-136 | For every positive threshold, a run in which an ingest between the two queries yields a reply no table version gives. |
| `PredictionService.Service.PredictDelay` | app/services/predictor.py:91-151 | predict_delay on the fields in place: the live entry, or the uncached computation on the current table, which is the reply its rows determine. |
| `PredictionCache.EntryLivesItsTtl` | app/services/cache.py:20-26 | Over any run that stores nothing under a key, its entry stays as it is and can be read exactly until TTL seconds after it was stored; what cannot be read stays unreadable. |
| `PredictionCache.EntryCanGoBackIff` | app/services/predictor.py:112-151 | What a key holds can be replaced by a value from an older table (by the version its last query saw) if and only if, at this moment, such a value for that key is computed and waits to be stored; requests that have still to query cannot do it. |
| `PredictionCache.StaleValueCanReplaceFresh` | app/services/predictor.py:112-151 | For every positive threshold and any row on the requested route, a run in which a slow miss stores last: the value without the row replaces the different value with it. |
| `RealtimeIngest.CommitsIffAcceptable` | app/services/gtfs_realtime.py:96-189 | A feed commits if and only if no trip has a malformed start date or repeats a key among its rows; the tables have no say in it, and otherwise every table stays as it was. |
| `RealtimeIngest.TouchesTwiceIffStopRepeats` | app/services/gtfs_realtime.py:159-187 | A trip update is refused if and only if two of its qualifying stops are the same stop. |
| `RealtimeIngest.FirstPlaceLastValues` | app/services/gtfs_realtime.py:175-188 | After any sequence of feeds: one row per (trip, stop, service date) ever committed, id and route from the first qualifying update, delay and times from the last, hour and weekday always those of observed_at. |
| `RealtimeIngest.FeedsReplayLog` | app/services/gtfs_realtime.py:100-189 | The observation table after any sequence of feeds is the upsert of the committed feeds' qualifying updates in processing order. |
| `IngestFromMessages.WellFormedIsAcceptable` | app/services/gtfs_realtime.py:106-187 | A feed is acceptable if and only if no start date is malformed and no trip update has two complete stop messages for one stop, said of the message fields. |
| `IngestFromMessages.FeedChangesObservations` | app/services/gtfs_realtime.py:128-188 | For every key: delay (the arrival's if there is one, else the departure's), instant, hour and weekday from the last trip update of the feed that reports it, route from the first if the key is new; no report, no change. |
| `IngestFromMessages.FeedStoresRows` | app/services/gtfs_realtime.py:111-157 | Every trip update and stop message of the feed has its row, column by column, at its place behind the old rows. |
| `IngestFromMessages.IngestFollowsMessages` | app/services/gtfs_realtime.py:96-192 | A feed is committed if and only if it is well-formed, and then does to every table what its messages say. |
| `IngestFromMessages.PruneKeepsExactly` | app/services/gtfs_realtime.py:200-208 | After a prune exactly the trip updates and positions from the cutoff on are left, and the stop updates whose trip update was not removed, each as often as before. |
| `Observations.UpsertRowsRepresent` | app/services/gtfs_realtime.py:177-187 | Upserting any log gives exactly one row per key, first place, last values. |
| `Observations.UpsertRowsExtend` | app/services/gtfs_realtime.py:177-187 | No upsert moves a row or changes its id, route, trip, stop or service date. |
| `Observations.UpsertRowsKeep` | app/services/gtfs_realtime.py:177-187 | Unique keys, increasing ids and hour/weekday consistency survive every upsert. |
| `RealtimeStore.Store.IngestTrip` | app/services/gtfs_realtime.py:104-188 | The loop over stop updates, in place: parent row, child rows, qualifying observations, upsert; or the failure. |
| `RealtimeStore.Store.IngestTripUpdates` | app/services/gtfs_realtime.py:96-192 | The loop over entities: returns the number of trip updates, or restores every table. |
| `RealtimeStore.Store.PruneOldRealtime` | app/services/gtfs_realtime.py:195-210 | Deletes old trip updates with their children and old positions, returns the number of the two kinds removed, leaves observations untouched. |
| `RealtimeIngest.PruneKeepsLinks` | app/services/gtfs_realtime.py:204-207 | Pruning leaves no stop_time_update without its trip update. |
| `RealtimeIngest.IngestKeepsLinks` | app/services/gtfs_realtime.py:123-157 | Neither does ingesting a feed. |
| `LiveDelays.NewestFirstSorts` | app/api/routes/delays.py:66 | ORDER BY gives the same rows in descending order of recorded time. |
| `LiveAnswer.JoinedIsTheJoin` | app/api/routes/delays.py:46-64 | For every row, the join shows it once for each pair of a trip update in the window and a stop update of it that pass the filters and have these columns; the delay shown is the departure's if there is one. |
| `LiveAnswer.PageFollowsTables` | app/api/routes/delays.py:38-89 | The response from the tables alone: anchor at the newest trip update, the pairs of the answer newest first, cut at the limit, counted. |
| `LiveDelays.PageAfterPrune` | app/api/routes/delays.py:38-67 | The response after a prune is the old rows, ordered, without those older than the cutoff, limited; or empty when the newest update is gone. |
| `LiveDelays.PruneLeavesPageIff` | app/api/routes/delays.py:38-67 | Pruning leaves the response of the endpoint as it was if and only if there is no trip update, or the newest one survives and no row on the page is older than the cutoff. |
| `LiveDelays.PruneBeforeWindowIsInvisible` | app/api/routes/delays.py:38-67 | A cutoff at or before latest - window changes no live answer, whatever its filters and limit. |
| `FeaturePipeline.RefreshPartitionsWindow` | app/services/feature_pipeline.py:33-60 | A refresh writes one row per route in the window, each with at least one sample, the counts summing to the window; every other route keeps its row. |
| `FeaturePipeline.StatWithin` | app/services/feature_pipeline.py:43-47 | min <= avg <= max and min <= p50 <= p90 <= max for every refreshed row. |
| `FeatureColumns.RefreshFollowsRows` | app/services/feature_pipeline.py:33-60 | After a refresh a route's row holds count, mean, fifth and ninth decile of the delays of its rows in the window, in whatever order these are listed; a route without rows keeps what it had. |
| `FeaturePipeline.OneRowPerObservation` | app/services/feature_pipeline.py:71-106 | The SELECT with its three joins gives exactly one row per in-window observation, the one found by direct lookup. |
| `FeaturePipeline.RebuildNeverTouchesTwice` | app/services/feature_pipeline.py:92-117 | Hence the upsert never meets an observation twice and the rebuild always goes through. |
| `FeaturePipeline.RebuildAgreesWithJoin` | app/services/feature_pipeline.py:63-118 | After a rebuild every in-window feature agrees with the direct join on holiday, weather, route history and label; a new row equals it outright, an old one keeps its other columns; rows outside the window are untouched. |
| `FeatureColumns.RebuiltColumns` | app/services/feature_pipeline.py:71-118 | Every in-window feature column by column: holiday if and only if the service date is one, weather averages, the route's statistics, delay; in a new row also identity, hour, weekday, weekend and month. |
| `FeatureColumns.AverageIs` | app/services/feature_pipeline.py:94-101 | A weather column is NULL if and only if no reading from 90 minutes before to 30 minutes after has a value, and otherwise their mean. |
| `FeatureColumns.FarReadingsDoNotMatter` | app/services/feature_pipeline.py:99-101 | A reading outside that interval has no part in the feature. |
| `Calendar.MonthOf` | app/services/feature_pipeline.py:83 | The month of a day in the Gregorian calendar, leap years included. |
| `FeaturePipeline.RebuildTwice` | app/services/feature_pipeline.py:140-152 | Rebuilding again with the same cutoff changes nothing but materialized_at. |
| `FeatureRuns.InvRun` | app/services/feature_pipeline.py:63-118 | Over every run of ingests, prunes, weather, holidays, refreshes and rebuilds, each feature names an existing observation, agrees with it on route, trip, stop, service date and month, and is consistent in itself. |
| `FeatureRuns.FirstAndLastJoin` | app/services/feature_pipeline.py:105-117 | After any run a feature exists if and only if some rebuild covered its observation; its identity and calendar columns are those of the join at the first such rebuild, its derived columns and label those at the last. |
| `FeatureRuns.CurrentIff` | app/services/feature_pipeline.py:107-117 | A rebuilt feature equals the direct join in every column if and only if it is new or was materialised with the observed_at the observation still has. |
| `FeatureRuns.CalendarColumnsCanLag` | app/services/feature_pipeline.py:107-117 | A run in which the label follows a later report and the hour of day does not. |
| `FeatureRuns.IngestKeepsTable` | app/services/gtfs_realtime.py:176-187 | A committed or failed feed keeps keys unique, ids increasing, times consistent, and every row's identity. |
| `PipelineService.PipelineStats` | app/services/feature_pipeline.py:155-159 | With any other transactions between the two stages, an in-window feature carries this run's statistics exactly if its route occurred in the refresh window, and otherwise the row the table held before, if any. |
| `PipelineService.PipelineUsesItsOwnStats` | app/services/feature_pipeline.py:121-159 | With a clock that does not go backwards every in-window feature carries non-null statistics computed by the same run. |
| `PipelineService.ReversedOrderUsesOldStats` | app/services/feature_pipeline.py:155-159 | In the other order features carry the statistics from before the run, or none. |
| `PipelineService.WindowChosen` | app/services/feature_pipeline.py:121-125 | No window, or 0, means 30 days before the clock; any other number means that many. |
| `PipelineService.Tables.RefreshRouteDelayStats` | app/services/feature_pipeline.py:121-137 | Replaces the refreshed routes' rows and returns their number; 0 or no window means the default. |
| `PipelineService.Tables.RebuildTrainingFeatures` | app/services/feature_pipeline.py:140-152 | Rebuilds in place, returns the number of in-window observations, keeps the run invariant. |
| `PipelineService.Tables.RunPipeline` | app/services/feature_pipeline.py:155-159 | Both stages in order, with both counts. |
| `ChunkedUpsert.ChunkedIsOverride` | app/services/gtfs_static.py:83-107 | For any batch size a chunked upsert succeeds if and only if no batch repeats a key and all references resolve; the result is the old table overridden by all rows and does not depend on the batch size. |
| `ChunkedUpsert.OverrideOrigin` | app/services/gtfs_static.py:101-104 | Every entry of the result is an old one no row mentions, or one of the rows. |
| `ChunkedUpsert.OverrideLast` | app/services/gtfs_static.py:101-104 | The last row of a key is the one that stays. |
| `ChunkedUpsert.BatchSizeMatters` | app/services/gtfs_static.py:92-94 | The batch size does decide whether a repeated key is accepted. |
| `ChunkedUpsert.Upsert` | app/services/gtfs_static.py:83-107 | The chunk loop computes the override, or stops at the first failing statement. |
| `StaticFeed.CollectIsExact` | app/services/gtfs_static.py:213-235 | A file is readable if and only if no row raises, and then holds exactly the rows not skipped. |
| `StaticFeed.HmsIff` | app/services/gtfs_static.py:77-80 | A text is a time if and only if it is three fields between two colons that all read as integers, with no bound on the hours; its value is then hours, minutes and seconds added up, and every other text raises. |
| `StaticFromCells.AgencyReads` | app/services/gtfs_static.py:116-124 | Which row a record of agency.txt becomes, cell by cell. |
| `StaticFromCells.RouteReads` | app/services/gtfs_static.py:128-139 | Which row a record of routes.txt becomes, cell by cell, and that none is skipped. |
| `StaticFromCells.StopReads` | app/services/gtfs_static.py:144-162 | Which row a record of stops.txt becomes: lat from stop_lat, lon from stop_lon, and so on; it is skipped if and only if one coordinate is blank and the other readable or blank. |
| `StaticFromCells.TripReads` | app/services/gtfs_static.py:166-178 | Which row a record of trips.txt becomes, cell by cell. |
| `StaticFromCells.ServiceReads` | app/services/gtfs_static.py:182-196 | Which row a record of calendar.txt becomes; a day is on if and only if its cell is a 1 with nothing but white space around it. |
| `StaticFromCells.ExceptionReads` | app/services/gtfs_static.py:201-208 | Which row a record of calendar_dates.txt becomes, cell by cell. |
| `StaticFromCells.StopTimeReads` | app/services/gtfs_static.py:215-235 | Which row a record of stop_times.txt becomes: arrival from arrival_time, departure from departure_time, and so on; it is skipped if and only if a time is blank. |
| `StaticFromCells.RowsReadableIff` | app/services/gtfs_static.py:114-235 | A feed's rows exist if and only if every required file is there and every record reads as a row or is skipped. |
| `StaticFromCells.LoadFollowsCells` | app/services/gtfs_static.py:114-239 | After a successful load every table holds, for each key of its file, the cells of the last record with that key, and for other keys what it held; stop_times holds nothing else. |
| `StaticLoad.InsertIsOverride` | app/services/gtfs_static.py:236-239 | A plain chunked insert succeeds if and only if no key repeats anywhere and all references resolve, whatever the chunk size. |
| `StaticLoad.LoadsIff` | app/services/gtfs_static.py:114-250 | The whole load succeeds if and only if the required files are there, every row can be read, no batch repeats a key, stop_times repeats none, and every reference resolves to an old row or a kept row of the feed; the result is then given table by table. |
| `StaticLoad.LoadKeepsIntact` | app/services/gtfs_static.py:114-250 | A load, successful or not, leaves every route, trip and stop_time reference resolving. |
| `StaticLoad.StopTimesAreTheFeeds` | app/services/gtfs_static.py:212-239 | After a successful load stop_times holds exactly the feed's rows with both times, one entry each. |
| `StaticLoad.ReloadIsNoOp` | app/services/gtfs_static.py:114-239 | Loading the same feed again changes nothing. |
| `StaticLoad.BlankAgencyNeedsDefault` | app/services/gtfs_static.py:128-140 | A route with a blank agency id does not load unless an agency "default" is known or in the feed. |
| `StaticLoad.DroppedStopFailsTheLoad` | app/services/gtfs_static.py:143-163 | A stop time at a stop dropped for missing coordinates does not load unless the stop was known before. |
| `StaticLoad.RepeatedStopTimeFailsTheLoad` | app/services/gtfs_static.py:236-239 | Two rows for one trip and sequence do not load, wiped table or not. |
| `StaticStore.Tables.ReadStops` | app/services/gtfs_static.py:143-162 | The loop that leaves out stops without both coordinates. |
| `StaticStore.Tables.ReadStopTimes` | app/services/gtfs_static.py:214-235 | The loop that leaves out rows without both times. |
| `StaticStore.Tables.InsertChunks` | app/services/gtfs_static.py:236-239 | The insert loop after the wipe, with its exact condition for success. |
| `StaticStore.Tables.IngestFrames` | app/services/gtfs_static.py:114-239 | All tables in place and in foreign-key order. |
| `StaticStore.Tables.IngestStaticFeed` | app/services/gtfs_static.py:244-250 | All or nothing: success under the condition of LoadsIff, otherwise the tables are as before. |
| `Predictor.EstimatorsAgree` | app/services/predictor.py:112-144 | Consistency check, by unfolding both cascades: without a model the two separately written estimators agree on delay, method, sample size and confidence, for every table and threshold. |
| `Predictor.ModelChangesOnlyThePoint` | app/services/predictor.py:277-316 | Consistency check, likewise: a loaded model replaces the point estimate of a bucket that reaches the threshold, and nothing else. |

## Left out

- HTTP, retries, protobuf, zip and CSV decoding, Celery scheduling, logging, Docker and deployment: I/O; the model starts from decoded messages, rows and cells.
- XGBoost, scikit-learn, joblib: an artefact is a write stamp, a loaded model any function of the five features.
- S3 backend: the same step system with object generations as stamps; an ETag that returns to an earlier value, download errors, which leave the locked block by an exception, and a trainer sharing the API's local path are not modelled.
- Reading the artefact file is one indivisible step; a write that starts in the middle of a read is not modelled.
- Vehicle positions are reduced to their recorded time, which is all pruning looks at; ingest_vehicle_positions and the schedule_relationship columns would only add easy members.
- Sequence gaps: ids drawn by a rolled-back session are drawn again in the model. Overflow of integer, smallint and interval columns is not modelled.
- The latest-rainfall query of predict_with_interval is a parameter.
- Redis: the JSON round trip is the identity, and a TTL of zero or less, which Redis refuses, is not treated as an error.
- Floating point: averages, percentiles and weather readings are exact; exp(-n/30) is q^n for a fixed 0 < q < 1.
- Rows that tie under ORDER BY keep table order.
- Station polling and holiday parsing are reduced to the rows they write: weather rows are added and never altered, holidays are upserted by date.
- A pipeline stage reads its caller's clock and NOW() once each.
- Stop geography, which is computed from the coordinates, ANALYZE, and the missing-column NaN cells of short CSV rows.
- PostGIS search, stop listing, health and trip routes: thin queries.
- Concurrent static loads: one load at a time.
- Table representation: tables whose key uniqueness is itself proved (observations, statistics, holidays) are row sequences under `Keyed`; the static tables, of which only key lookup matters, are maps under `ChunkedUpsert`.
