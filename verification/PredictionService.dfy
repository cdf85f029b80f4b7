/** predict_delay as the program writes it, on a mutable Redis, clock and observation table.  Each
    method is one stretch between awaits and is proved to be a step of PredictionCache. */
module PredictionService {
  import opened Basics
  import opened Clock
  import opened Observations
  import opened Predictor
  import opened PredictionFromRows
  import opened PredictionCache

  class Service {
    const cfg: Settings
    var tables: seq<Table>
    var now: int
    var redis: map<string, Stored>
    var calls: seq<Call>

    constructor (cfg: Settings, n: nat, table: Table, start: int)
      ensures this.cfg == cfg && Snapshot() == Init(n, table, start)
    {
      this.cfg := cfg;
      tables, now, redis := [table], start, map[];
      calls := seq(n, i => Idle);
    }

    function Snapshot(): State
      reads this
    {
      State(tables, now, redis, calls)
    }

    method GetJson(i: nat, r: Request)
      requires Enabled(Snapshot(), Ask(i, r))
      modifies `calls
      ensures Snapshot() == AfterAsk(cfg, old(Snapshot()), i, r)
    {
      var key := KeyOf(r);
      if key in redis && now < redis[key].storedAt + cfg.ttl {
        calls := calls[i := Answered(r, redis[key], now)];
      } else {
        calls := calls[i := Missed(r)];
      }
    }

    method ComputeSince(i: nat)
      requires Enabled(Snapshot(), Window(i))
      modifies `calls
      ensures Snapshot() == AfterWindow(cfg, old(Snapshot()), i)
    {
      calls := calls[i := Windowed(calls[i].r, now - cfg.historySeconds)];
    }

    method RunBucketQuery(i: nat)
      requires Enabled(Snapshot(), QueryBucket(i))
      modifies `calls
      ensures Snapshot() == AfterBucketQuery(cfg, old(Snapshot()), i)
    {
      var Windowed(r, since) := calls[i];
      var v := |tables| - 1;
      var bucket := QueryBucketStats(tables[v], r, since);
      if bucket.sampleSize >= cfg.minObservations {
        calls := calls[i := Computed(FromBucket(cfg, r, bucket), Origin(r, since, v, v))];
      } else {
        calls := calls[i := Sparse(r, since, v)];
      }
    }

    method RunRouteQuery(i: nat)
      requires Enabled(Snapshot(), QueryRoute(i))
      modifies `calls
      ensures Snapshot() == AfterRouteQuery(cfg, old(Snapshot()), i)
    {
      var Sparse(r, since, v) := calls[i];
      var last := |tables| - 1;
      var fallback := QueryRouteFallback(tables[last], r.route, since);
      calls := calls[i := Computed(FromFallback(cfg, r, fallback), Origin(r, since, v, last))];
    }

    method SetJson(i: nat)
      requires Enabled(Snapshot(), Put(i))
      modifies `calls, `redis
      ensures Snapshot() == AfterPut(old(Snapshot()), i)
    {
      var Computed(value, origin) := calls[i];
      var entry := Stored(value, origin, now);
      redis := redis[KeyOf(origin.request) := entry];
      calls := calls[i := Answered(origin.request, entry, now)];
    }

    method RunQueries(i: nat)
      requires i < |calls| && calls[i].Windowed? && tables != []
      modifies `calls
      ensures Snapshot() == AfterQueries(cfg, old(Snapshot()), i)
    {
      RunBucketQuery(i);
      if calls[i].Sparse? {
        RunRouteQuery(i);
      }
    }

    /** One request with nobody interfering: it is the run AfterRequest describes, and what it
        answers and leaves in Redis is stated by RequestAlone. */
    method PredictDelay(i: nat, r: Request) returns (reply: Prediction)
      requires Enabled(Snapshot(), Ask(i, r)) && tables != []
      modifies `calls, `redis
      ensures Snapshot() == AfterRequest(cfg, old(Snapshot()), i, r)
      ensures i < |calls| && calls[i].Answered? && reply == calls[i].reply.value
      ensures reply == if old(Alive(cfg, Snapshot(), KeyOf(r))) then old(redis)[KeyOf(r)].value
                       else Uncached(cfg, tables[|tables| - 1], now - cfg.historySeconds, r)
      ensures !old(Alive(cfg, Snapshot(), KeyOf(r))) ==>
                RepliesFromRows(cfg, tables[|tables| - 1], now - cfg.historySeconds, r, reply)
    {
      hide KeyOf, Uncached, RepliesFromRows, FromBucket, FromFallback, QueryBucketStats, QueryRouteFallback,
        AfterQueries;
      UncachedFromRows(cfg, tables[|tables| - 1], now - cfg.historySeconds, r);
      RequestAlone(cfg, Snapshot(), i, r);
      GetJson(i, r);
      if calls[i].Missed? {
        ComputeSince(i);
        QueriesCompute(cfg, Snapshot(), i);
        RunQueries(i);
        SetJson(i);
      }
      reply := calls[i].reply.value;
    }
  }
}
