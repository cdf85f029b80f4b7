/** predict_delay with its Redis cache, as a step system: requests, ingests and the clock interleave
    at every await, and the two statistics queries of one request are separate statements. */
module PredictionCache {
  import opened Basics
  import opened Clock
  import opened Observations
  import opened Predictor
  import opened PredictionKey

  /** Where a value came from: the request that computed it, its window start, and the table
      versions its two queries saw. */
  datatype Origin = Origin(request: Request, since: int, bucketVersion: nat, routeVersion: nat)

  datatype Stored = Stored(value: Prediction, origin: Origin, storedAt: int)

  datatype Call =
    | Idle
    | Missed(r: Request)                                    // cache.get_json found nothing
    | Windowed(r: Request, since: int)                      // `since` computed
    | Sparse(r: Request, since: int, version: nat)          // bucket query done, too few rows
    | Computed(value: Prediction, origin: Origin)           // cache.set_json to come
    | Answered(r: Request, reply: Stored, servedAt: int)

  /** All table versions so far, the last one current; the clock; Redis; the requests in flight. */
  datatype State = State(tables: seq<Table>, now: int, redis: map<string, Stored>, calls: seq<Call>)

  datatype Step =
    | Ingest(table: Table) | Tick(seconds: nat)
    | Ask(i: nat, r: Request) | Window(i: nat) | QueryBucket(i: nat) | QueryRoute(i: nat) | Put(i: nat)

  function KeyOf(r: Request): string {
    BucketKey(r.route, r.stop, HourOf(r.target), WeekdayOf(r.target))
  }

  /** A key set with ex=ttl can be read until its expiry. */
  predicate Alive(cfg: Settings, s: State, key: string) {
    key in s.redis && s.now < s.redis[key].storedAt + cfg.ttl
  }

  predicate Enabled(s: State, e: Step) {
    match e
    case Ingest(table) => true
    case Tick(dt) => true
    case Ask(i, r) => i < |s.calls| && (s.calls[i].Idle? || s.calls[i].Answered?)
    case Window(i) => i < |s.calls| && s.calls[i].Missed?
    case QueryBucket(i) => i < |s.calls| && s.calls[i].Windowed? && s.tables != []
    case QueryRoute(i) => i < |s.calls| && s.calls[i].Sparse? && s.tables != []
    case Put(i) => i < |s.calls| && s.calls[i].Computed?
  }

  function Move(s: State, i: nat, c: Call): State
    requires i < |s.calls|
  {
    s.(calls := s.calls[i := c])
  }

  predicate InCall(s: State, i: nat) {
    i < |s.calls|
  }

  function AfterAsk(cfg: Settings, s: State, i: nat, r: Request): State
    requires InCall(s, i)
  {
    Move(s, i, if Alive(cfg, s, KeyOf(r)) then Answered(r, s.redis[KeyOf(r)], s.now) else Missed(r))
  }

  function AfterWindow(cfg: Settings, s: State, i: nat): State
    requires InCall(s, i) && s.calls[i].Missed?
  {
    Move(s, i, Windowed(s.calls[i].r, s.now - cfg.historySeconds))
  }

  function AfterBucketQuery(cfg: Settings, s: State, i: nat): State
    requires InCall(s, i) && s.calls[i].Windowed? && s.tables != []
  {
    var Windowed(r, since) := s.calls[i];
    var v := |s.tables| - 1;
    var bucket := QueryBucketStats(s.tables[v], r, since);
    Move(s, i, if bucket.sampleSize >= cfg.minObservations
               then Computed(FromBucket(cfg, r, bucket), Origin(r, since, v, v))
               else Sparse(r, since, v))
  }

  function AfterRouteQuery(cfg: Settings, s: State, i: nat): State
    requires InCall(s, i) && s.calls[i].Sparse? && s.tables != []
  {
    var Sparse(r, since, v) := s.calls[i];
    var last := |s.tables| - 1;
    var fallback := QueryRouteFallback(s.tables[last], r.route, since);
    Move(s, i, Computed(FromFallback(cfg, r, fallback), Origin(r, since, v, last)))
  }

  function AfterPut(s: State, i: nat): State
    requires InCall(s, i) && s.calls[i].Computed?
  {
    var Computed(value, o) := s.calls[i];
    var entry := Stored(value, o, s.now);
    Move(s, i, Answered(o.request, entry, s.now)).(redis := s.redis[KeyOf(o.request) := entry])
  }

  function Apply(cfg: Settings, s: State, e: Step): State
    requires Enabled(s, e)
  {
    match e
    case Ingest(table) => s.(tables := s.tables + [table])
    case Tick(dt) => s.(now := s.now + dt)
    case Ask(i, r) => AfterAsk(cfg, s, i, r)
    case Window(i) => AfterWindow(cfg, s, i)
    case QueryBucket(i) => AfterBucketQuery(cfg, s, i)
    case QueryRoute(i) => AfterRouteQuery(cfg, s, i)
    case Put(i) => AfterPut(s, i)
  }

  ghost predicate Legal(cfg: Settings, s: State, es: seq<Step>)
    decreases |es|
  {
    es == [] || (Enabled(s, es[0]) && Legal(cfg, Apply(cfg, s, es[0]), es[1..]))
  }

  ghost function Exec(cfg: Settings, s: State, es: seq<Step>): State
    requires Legal(cfg, s, es)
    decreases |es|
  {
    if es == [] then s else Exec(cfg, Apply(cfg, s, es[0]), es[1..])
  }

  /** n callers, an empty cache and one table. */
  function Init(n: nat, table: Table, now: int): State {
    State([table], now, map[], seq(n, i => Idle))
  }

  // ---------------------------------------------------------------- the invariant

  /** What the two queries of one request give on the versions they saw. */
  function Value(cfg: Settings, tables: seq<Table>, o: Origin): Prediction
    requires o.bucketVersion < |tables| && o.routeVersion < |tables|
  {
    Compose(cfg, tables[o.bucketVersion], tables[o.routeVersion], o.since, o.request)
  }

  /** The two queries differ in version only if the first found the bucket too small. */
  ghost predicate SoundOrigin(cfg: Settings, s: State, value: Prediction, o: Origin) {
    && o.bucketVersion <= o.routeVersion < |s.tables|
    && (o.bucketVersion == o.routeVersion
        || |BucketSamples(s.tables[o.bucketVersion], o.request, o.since)| < cfg.minObservations)
    && o.since <= s.now - cfg.historySeconds
    && value == Value(cfg, s.tables, o)
  }

  ghost predicate SoundEntry(cfg: Settings, s: State, entry: Stored) {
    && SoundOrigin(cfg, s, entry.value, entry.origin)
    && entry.origin.since + cfg.historySeconds <= entry.storedAt <= s.now
  }

  ghost predicate SoundCall(cfg: Settings, s: State, c: Call) {
    match c
    case Idle => true
    case Missed(r) => true
    case Windowed(r, since) => since <= s.now - cfg.historySeconds
    case Sparse(r, since, v) =>
      && v < |s.tables| && since <= s.now - cfg.historySeconds
      && QueryBucketStats(s.tables[v], r, since).sampleSize < cfg.minObservations
    case Computed(value, o) => SoundOrigin(cfg, s, value, o)
    case Answered(r, entry, at) =>
      && SoundEntry(cfg, s, entry)
      && KeyOf(r) == KeyOf(entry.origin.request)
      && entry.storedAt <= at <= s.now
      && (at == entry.storedAt || at < entry.storedAt + cfg.ttl)
  }

  ghost predicate Inv(cfg: Settings, s: State) {
    && s.tables != []
    && (forall k :: k in s.redis ==> SoundEntry(cfg, s, s.redis[k]) && KeyOf(s.redis[k].origin.request) == k)
    && (forall i :: 0 <= i < |s.calls| ==> SoundCall(cfg, s, s.calls[i]))
  }

  lemma SoundStays(cfg: Settings, s: State, e: Step, c: Call)
    requires Enabled(s, e) && SoundCall(cfg, s, c)
    ensures SoundCall(cfg, Apply(cfg, s, e), c)
  {
  }

  lemma SoundEntryStays(cfg: Settings, s: State, e: Step, entry: Stored)
    requires Enabled(s, e) && SoundEntry(cfg, s, entry)
    ensures SoundEntry(cfg, Apply(cfg, s, e), entry)
  {
  }

  lemma InvStep(cfg: Settings, s: State, e: Step)
    requires Inv(cfg, s) && Enabled(s, e)
    ensures Inv(cfg, Apply(cfg, s, e))
  {
    var s' := Apply(cfg, s, e);
    forall i | 0 <= i < |s'.calls|
      ensures SoundCall(cfg, s', s'.calls[i])
    {
      SoundStays(cfg, s, e, s.calls[i]);
      if s'.calls[i] != s.calls[i] {
        MovedCallIsSound(cfg, s, e, i);
      }
    }
    forall k | k in s'.redis
      ensures SoundEntry(cfg, s', s'.redis[k]) && KeyOf(s'.redis[k].origin.request) == k
    {
      if e.Put? && k == KeyOf(s.calls[e.i].origin.request) {
        assert SoundCall(cfg, s, s.calls[e.i]);
      } else {
        SoundEntryStays(cfg, s, e, s.redis[k]);
      }
    }
  }

  lemma MovedCallIsSound(cfg: Settings, s: State, e: Step, i: nat)
    requires Inv(cfg, s) && Enabled(s, e) && i < |s.calls|
    requires Apply(cfg, s, e).calls[i] != s.calls[i]
    ensures SoundCall(cfg, Apply(cfg, s, e), Apply(cfg, s, e).calls[i])
  {
    hide KeyOf, Compose, FromBucket, FromFallback, QueryRouteFallback, BucketSamples, MeanOf, PercentileOf;
    var c, v := s.calls[i], |s.tables| - 1;
    assert SoundCall(cfg, s, c);
    if c.Windowed? {
      ComposeCases(cfg, s.tables[v], s.tables[v], c.since, c.r);
    } else if c.Sparse? {
      ComposeCases(cfg, s.tables[c.version], s.tables[v], c.since, c.r);
    }
  }

  lemma {:induction false} InvRun(cfg: Settings, s: State, es: seq<Step>)
    requires Inv(cfg, s) && Legal(cfg, s, es)
    ensures Inv(cfg, Exec(cfg, s, es))
    decreases |es|
  {
    if es != [] {
      InvStep(cfg, s, es[0]);
      InvRun(cfg, Apply(cfg, s, es[0]), es[1..]);
    }
  }

  // ---------------------------------------------------------------- what every reply is

  /** In every run, each reply was stored under the key of its request, no more than ttl seconds
      before it was served (or just then), and is what its own two queries give; if both saw one
      table version it is the uncached computation on that version.  A request whose ids contain no
      colon is answered with its own values in every field but target_time. */
  lemma RepliesAreSound(cfg: Settings, n: nat, table: Table, start: int, es: seq<Step>, i: nat)
    requires Legal(cfg, Init(n, table, start), es)
    requires var s := Exec(cfg, Init(n, table, start), es); i < |s.calls| && s.calls[i].Answered?
    ensures var s := Exec(cfg, Init(n, table, start), es);
            var Answered(r, entry, at) := s.calls[i];
            var o := entry.origin;
            && (entry.storedAt <= at && (at == entry.storedAt || at < entry.storedAt + cfg.ttl))
            && o.bucketVersion <= o.routeVersion < |s.tables|
            && KeyOf(o.request) == KeyOf(r)
            && entry.value == Value(cfg, s.tables, o)
            && (o.bucketVersion == o.routeVersion ==>
                  entry.value == Uncached(cfg, s.tables[o.bucketVersion], o.since, o.request))
            && (':' !in r.route && ':' !in r.stop ==>
                  entry.value.(target := r.target)
                  == Compose(cfg, s.tables[o.bucketVersion], s.tables[o.routeVersion], o.since, r))
  {
    var s0 := Init(n, table, start);
    assert Inv(cfg, s0);
    InvRun(cfg, s0, es);
    var s := Exec(cfg, s0, es);
    assert SoundCall(cfg, s, s.calls[i]);
    var Answered(r, entry, at) := s.calls[i];
    var q := entry.origin.request;
    if ':' !in r.route && ':' !in r.stop {
      KeyIsExclusiveIff(r.route, r.stop, HourOf(r.target), WeekdayOf(r.target));
      assert q.route == r.route && q.stop == r.stop;
      SameBucketSameReply(cfg, s.tables[entry.origin.bucketVersion], s.tables[entry.origin.routeVersion],
                          entry.origin.since, q, r);
    }
  }

  /** In every run, a reply is the uncached computation on the table its second query saw exactly if
      both queries saw that table, or the bucket was still too small in it. */
  lemma ReplyIsUncachedIff(cfg: Settings, n: nat, table: Table, start: int, es: seq<Step>, i: nat)
    requires Legal(cfg, Init(n, table, start), es)
    requires var s := Exec(cfg, Init(n, table, start), es); i < |s.calls| && s.calls[i].Answered?
    ensures var s := Exec(cfg, Init(n, table, start), es);
            var entry := s.calls[i].reply;
            var o := entry.origin;
            && o.bucketVersion <= o.routeVersion < |s.tables|
            && (entry.value == Uncached(cfg, s.tables[o.routeVersion], o.since, o.request) <==>
                  o.bucketVersion == o.routeVersion
                  || |BucketSamples(s.tables[o.routeVersion], o.request, o.since)| < cfg.minObservations)
  {
    hide KeyOf, Compose, BucketSamples;
    var s := Exec(cfg, Init(n, table, start), es);
    assert Inv(cfg, Init(n, table, start));
    InvRun(cfg, Init(n, table, start), es);
    assert SoundCall(cfg, s, s.calls[i]);
    var o := s.calls[i].reply.origin;
    if o.bucketVersion != o.routeVersion {
      ComposeIsUncachedIff(cfg, s.tables[o.bucketVersion], s.tables[o.routeVersion], o.since, o.request);
    }
  }

  predicate SameBucket(q: Request, r: Request) {
    q.route == r.route && q.stop == r.stop && HourOf(q.target) == HourOf(r.target)
    && WeekdayOf(q.target) == WeekdayOf(r.target)
  }

  lemma {:induction false} SameBucketSameSamples(table: Table, q: Request, r: Request, since: int)
    requires SameBucket(q, r)
    ensures BucketSamples(table, q, since) == BucketSamples(table, r, since)
  {
    if table != [] {
      SameBucketSameSamples(table[1..], q, r, since);
    }
  }

  lemma SameBucketSameReply(cfg: Settings, t1: Table, t2: Table, since: int, q: Request, r: Request)
    requires SameBucket(q, r)
    ensures Compose(cfg, t1, t2, since, q).(target := r.target) == Compose(cfg, t1, t2, since, r)
  {
    SameBucketSameSamples(t1, q, r, since);
  }

  /** The route id (or the stop id) of a request is free of colons. */
  predicate Plain(r: Request, byRoute: bool) {
    ':' !in (if byRoute then r.route else r.stop)
  }

  predicate PlainCall(c: Call, byRoute: bool) {
    match c
    case Idle => true
    case Missed(r) => Plain(r, byRoute)
    case Windowed(r, _) => Plain(r, byRoute)
    case Sparse(r, _, _) => Plain(r, byRoute)
    case Computed(_, o) => Plain(o.request, byRoute)
    case Answered(r, entry, _) => Plain(r, byRoute) && Plain(entry.origin.request, byRoute)
  }

  ghost predicate PlainState(s: State, byRoute: bool) {
    && (forall k :: k in s.redis ==> Plain(s.redis[k].origin.request, byRoute))
    && (forall i :: 0 <= i < |s.calls| ==> PlainCall(s.calls[i], byRoute))
  }

  ghost predicate AsksPlain(es: seq<Step>, byRoute: bool) {
    forall j :: 0 <= j < |es| && es[j].Ask? ==> Plain(es[j].r, byRoute)
  }

  lemma {:induction false} PlainRun(cfg: Settings, s: State, es: seq<Step>, byRoute: bool)
    requires PlainState(s, byRoute) && Legal(cfg, s, es) && AsksPlain(es, byRoute)
    ensures PlainState(Exec(cfg, s, es), byRoute)
    decreases |es|
  {
    hide KeyOf, Compose, FromBucket, FromFallback, QueryBucketStats, QueryRouteFallback, Plain;
    if es != [] {
      assert forall j :: 0 < j < |es| ==> es[j] == es[1..][j - 1];
      PlainRun(cfg, Apply(cfg, s, es[0]), es[1..], byRoute);
    }
  }

  /** In a run whose requests all have route ids without a colon, or all have stop ids without one,
      every request is answered with its own values in every field but target_time. */
  lemma PlainIdsGetTheirOwnValues(cfg: Settings, n: nat, table: Table, start: int, es: seq<Step>, i: nat,
                                  byRoute: bool)
    requires Legal(cfg, Init(n, table, start), es) && AsksPlain(es, byRoute)
    requires var s := Exec(cfg, Init(n, table, start), es); i < |s.calls| && s.calls[i].Answered?
    ensures var s := Exec(cfg, Init(n, table, start), es);
            var Answered(r, entry, _) := s.calls[i];
            var o := entry.origin;
            && o.bucketVersion <= o.routeVersion < |s.tables|
            && entry.value.(target := r.target)
               == Compose(cfg, s.tables[o.bucketVersion], s.tables[o.routeVersion], o.since, r)
  {
    hide Compose;
    RepliesAreSound(cfg, n, table, start, es, i);
    PlainRun(cfg, Init(n, table, start), es, byRoute);
    var s := Exec(cfg, Init(n, table, start), es);
    assert PlainCall(s.calls[i], byRoute);
    var Answered(r, entry, _) := s.calls[i];
    var o, q := entry.origin, entry.origin.request;
    var h, d, h', d' := HourOf(q.target), WeekdayOf(q.target), HourOf(r.target), WeekdayOf(r.target);
    if byRoute {
      ColonFreeRoutesDoNotCollide(q.route, q.stop, h, d, r.route, r.stop, h', d');
    } else {
      ColonFreeStopsDoNotCollide(q.route, q.stop, h, d, r.route, r.stop, h', d');
    }
    SameBucketSameReply(cfg, s.tables[o.bucketVersion], s.tables[o.routeVersion], o.since, q, r);
  }

  // ---------------------------------------------------------------- an entry over time

  predicate PutsUnder(s: State, e: Step, key: string)
    requires Enabled(s, e)
  {
    e.Put? && KeyOf(s.calls[e.i].origin.request) == key
  }

  /** Nothing is stored under the key during the run. */
  ghost predicate NothingPut(cfg: Settings, s: State, es: seq<Step>, key: string)
    requires Legal(cfg, s, es)
    decreases |es|
  {
    es == [] || (!PutsUnder(s, es[0], key) && NothingPut(cfg, Apply(cfg, s, es[0]), es[1..], key))
  }

  lemma OneStepLater(cfg: Settings, s: State, e: Step, key: string)
    requires Enabled(s, e) && !PutsUnder(s, e, key)
    ensures var s' := Apply(cfg, s, e);
            && s.now <= s'.now && (key in s'.redis <==> key in s.redis)
            && (key in s.redis ==> s'.redis[key] == s.redis[key])
  {
    hide KeyOf, FromBucket, FromFallback, QueryBucketStats, QueryRouteFallback;
  }

  /** While nothing is stored under a key, its entry stays as it is and can be read exactly until ttl
      seconds after it was stored; what cannot be read now cannot be read later. */
  lemma {:induction false} EntryLivesItsTtl(cfg: Settings, s: State, es: seq<Step>, key: string)
    requires Legal(cfg, s, es) && NothingPut(cfg, s, es, key)
    ensures var s' := Exec(cfg, s, es);
            && s.now <= s'.now && (key in s'.redis <==> key in s.redis)
            && (key in s.redis ==> s'.redis[key] == s.redis[key]
                                   && (Alive(cfg, s', key) <==> s'.now < s.redis[key].storedAt + cfg.ttl))
            && (!Alive(cfg, s, key) ==> !Alive(cfg, s', key))
    decreases |es|
  {
    hide Apply, Enabled, PutsUnder;
    if es != [] {
      OneStepLater(cfg, s, es[0], key);
      EntryLivesItsTtl(cfg, Apply(cfg, s, es[0]), es[1..], key);
    }
  }

  /** A value for the key, computed from a table older than version v, is waiting to be stored. */
  predicate WaitsWithOlder(c: Call, key: string, v: nat) {
    c.Computed? && KeyOf(c.origin.request) == key && c.origin.routeVersion < v
  }

  ghost predicate OlderInFlight(s: State, key: string, v: nat) {
    exists i :: 0 <= i < |s.calls| && WaitsWithOlder(s.calls[i], key, v)
  }

  /** The key holds a value from version v or later, and none from an earlier one is under way. */
  ghost predicate HoldsAtLeast(s: State, key: string, v: nat) {
    v < |s.tables| && key in s.redis && v <= s.redis[key].origin.routeVersion && !OlderInFlight(s, key, v)
  }

  lemma HoldsAtLeastStep(cfg: Settings, s: State, e: Step, key: string, v: nat)
    requires Enabled(s, e) && HoldsAtLeast(s, key, v)
    ensures HoldsAtLeast(Apply(cfg, s, e), key, v)
  {
    hide KeyOf, FromBucket, FromFallback, QueryBucketStats, QueryRouteFallback;
    var s' := Apply(cfg, s, e);
    forall i | 0 <= i < |s'.calls|
      ensures !WaitsWithOlder(s'.calls[i], key, v)
    {
      assert !WaitsWithOlder(s.calls[i], key, v);
    }
    if e.Put? {
      assert !WaitsWithOlder(s.calls[e.i], key, v);
    }
  }

  lemma {:induction false} HoldsAtLeastRun(cfg: Settings, s: State, es: seq<Step>, key: string, v: nat)
    requires Legal(cfg, s, es) && HoldsAtLeast(s, key, v)
    ensures HoldsAtLeast(Exec(cfg, s, es), key, v)
    decreases |es|
  {
    hide Apply, Enabled, HoldsAtLeast;
    if es != [] {
      HoldsAtLeastStep(cfg, s, es[0], key, v);
      HoldsAtLeastRun(cfg, Apply(cfg, s, es[0]), es[1..], key, v);
    }
  }

  /** After the run, the key holds a value computed from a table older than version v. */
  ghost predicate EndsOlder(cfg: Settings, s: State, es: seq<Step>, key: string, v: nat) {
    Legal(cfg, s, es) &&
    key in Exec(cfg, s, es).redis && Exec(cfg, s, es).redis[key].origin.routeVersion < v
  }

  /** The table version a value comes from is the one its last query saw.  What a key holds can be
      replaced by a value from an older version exactly if, right now, such a value for the key is
      computed and waits to be stored; requests that have still to query cannot do it. */
  lemma EntryCanGoBackIff(cfg: Settings, s: State, key: string)
    requires Inv(cfg, s) && key in s.redis
    ensures (exists es :: EndsOlder(cfg, s, es, key, s.redis[key].origin.routeVersion))
            <==> OlderInFlight(s, key, s.redis[key].origin.routeVersion)
  {
    var v := s.redis[key].origin.routeVersion;
    assert SoundEntry(cfg, s, s.redis[key]);
    if OlderInFlight(s, key, v) {
      var i :| 0 <= i < |s.calls| && WaitsWithOlder(s.calls[i], key, v);
      NoRun(cfg, s);
      var es := Extend(cfg, s, [], Put(i));
      assert EndsOlder(cfg, s, es, key, v);
    } else {
      forall es | Legal(cfg, s, es)
        ensures !EndsOlder(cfg, s, es, key, v)
      {
        HoldsAtLeastRun(cfg, s, es, key, v);
      }
    }
  }

  // ---------------------------------------------------------------- one request on its own

  lemma {:induction false} ExecAppend(cfg: Settings, s: State, es: seq<Step>, fs: seq<Step>)
    requires Legal(cfg, s, es) && Legal(cfg, Exec(cfg, s, es), fs)
    ensures Legal(cfg, s, es + fs)
    ensures Exec(cfg, s, es + fs) == Exec(cfg, Exec(cfg, s, es), fs)
    decreases |es|
  {
    if es == [] {
      assert es + fs == fs;
    } else {
      assert (es + fs)[0] == es[0] && (es + fs)[1..] == es[1..] + fs;
      ExecAppend(cfg, Apply(cfg, s, es[0]), es[1..], fs);
    }
  }

  lemma Extend(cfg: Settings, s: State, es: seq<Step>, e: Step) returns (fs: seq<Step>)
    requires Legal(cfg, s, es) && Enabled(Exec(cfg, s, es), e)
    ensures fs == es + [e] && Legal(cfg, s, fs)
    ensures Exec(cfg, s, fs) == Apply(cfg, Exec(cfg, s, es), e)
  {
    var t := Exec(cfg, s, es);
    assert [e][1..] == [];
    assert Legal(cfg, Apply(cfg, t, e), []);
    assert Legal(cfg, t, [e]);
    ExecAppend(cfg, s, es, [e]);
    fs := es + [e];
  }

  /** Both queries of one request, from its `since` to its prediction. */
  function AfterQueries(cfg: Settings, s: State, i: nat): State
    requires InCall(s, i) && s.calls[i].Windowed? && s.tables != []
  {
    var t := AfterBucketQuery(cfg, s, i);
    if t.calls[i].Sparse? then AfterRouteQuery(cfg, t, i) else t
  }

  /** A request that has missed, run to its end without interruption. */
  function AfterMiss(cfg: Settings, s: State, i: nat): State
    requires InCall(s, i) && s.calls[i].Missed? && s.tables != []
  {
    AfterPut(AfterQueries(cfg, AfterWindow(cfg, s, i), i), i)
  }

  /** A whole request. */
  function AfterRequest(cfg: Settings, s: State, i: nat, r: Request): State
    requires InCall(s, i) && s.tables != []
  {
    var s1 := AfterAsk(cfg, s, i, r);
    if s1.calls[i].Missed? then AfterMiss(cfg, s1, i) else s1
  }

  lemma QueriesAreARun(cfg: Settings, s: State, i: nat) returns (es: seq<Step>)
    requires Enabled(s, Window(i)) && s.tables != []
    ensures Legal(cfg, s, es) && Exec(cfg, s, es) == AfterQueries(cfg, AfterWindow(cfg, s, i), i)
  {
    NoRun(cfg, s);
    es := Extend(cfg, s, [], Window(i));
    es := Extend(cfg, s, es, QueryBucket(i));
    if Exec(cfg, s, es).calls[i].Sparse? {
      es := Extend(cfg, s, es, QueryRoute(i));
    }
  }

  lemma MissIsARun(cfg: Settings, s: State, i: nat) returns (es: seq<Step>)
    requires Enabled(s, Window(i)) && s.tables != []
    ensures Legal(cfg, s, es) && Exec(cfg, s, es) == AfterMiss(cfg, s, i)
  {
    es := QueriesAreARun(cfg, s, i);
    es := Extend(cfg, s, es, Put(i));
  }

  lemma MoveTwice(s: State, i: nat, c: Call, d: Call)
    requires i < |s.calls|
    ensures Move(Move(s, i, c), i, d) == Move(s, i, d)
  {
    assert s.calls[i := c][i := d] == s.calls[i := d];
  }

  lemma QueriesCompute(cfg: Settings, s: State, i: nat)
    requires InCall(s, i) && s.calls[i].Windowed? && s.tables != []
    ensures var Windowed(r, since) := s.calls[i];
            var v := |s.tables| - 1;
            AfterQueries(cfg, s, i)
            == Move(s, i, Computed(Uncached(cfg, s.tables[v], since, r), Origin(r, since, v, v)))
  {
    hide KeyOf, Compose, FromBucket, FromFallback, QueryBucketStats, QueryRouteFallback;
    var Windowed(r, since) := s.calls[i];
    var v := |s.tables| - 1;
    ComposeCases(cfg, s.tables[v], s.tables[v], since, r);
    if QueryBucketStats(s.tables[v], r, since).sampleSize < cfg.minObservations {
      MoveTwice(s, i, Sparse(r, since, v),
                Computed(Uncached(cfg, s.tables[v], since, r), Origin(r, since, v, v)));
    }
  }

  /** The uncached computation on the current table, dated now. */
  function FreshEntry(cfg: Settings, s: State, r: Request): Stored
    requires s.tables != []
  {
    var v, since := |s.tables| - 1, s.now - cfg.historySeconds;
    Stored(Uncached(cfg, s.tables[v], since, r), Origin(r, since, v, v), s.now)
  }

  /** Call i answered now with `entry`, and `entry` in Redis under the key of the request. */
  function Filed(s: State, i: nat, r: Request, entry: Stored): State
    requires InCall(s, i)
  {
    Move(s, i, Answered(r, entry, s.now)).(redis := s.redis[KeyOf(r) := entry])
  }

  lemma PutFiles(s: State, i: nat, value: Prediction, o: Origin)
    requires InCall(s, i)
    ensures AfterPut(Move(s, i, Computed(value, o)), i) == Filed(s, i, o.request, Stored(value, o, s.now))
  {
    hide KeyOf;
    MoveTwice(s, i, Computed(value, o), Answered(o.request, Stored(value, o, s.now), s.now));
  }

  lemma MissComputes(cfg: Settings, s: State, i: nat)
    requires InCall(s, i) && s.calls[i].Missed? && s.tables != []
    ensures AfterMiss(cfg, s, i) == Filed(s, i, s.calls[i].r, FreshEntry(cfg, s, s.calls[i].r))
  {
    hide KeyOf, Uncached, AfterQueries, AfterPut, Filed;
    var r := s.calls[i].r;
    var Stored(value, o, _) := FreshEntry(cfg, s, r);
    QueriesCompute(cfg, Move(s, i, Windowed(r, s.now - cfg.historySeconds)), i);
    MoveTwice(s, i, Windowed(r, s.now - cfg.historySeconds), Computed(value, o));
    PutFiles(s, i, value, o);
  }

  /** A request with nobody interfering: a live entry is returned and Redis stays as it was;
      otherwise the reply is the uncached computation, and Redis now holds it. */
  lemma RequestAlone(cfg: Settings, s: State, i: nat, r: Request)
    requires InCall(s, i) && s.tables != []
    ensures AfterRequest(cfg, s, i, r)
         == if Alive(cfg, s, KeyOf(r)) then Move(s, i, Answered(r, s.redis[KeyOf(r)], s.now))
            else Filed(s, i, r, FreshEntry(cfg, s, r))
  {
    hide KeyOf, FreshEntry, AfterMiss;
    if !Alive(cfg, s, KeyOf(r)) {
      MissComputes(cfg, Move(s, i, Missed(r)), i);
      FreshEntryAfterMove(cfg, s, i, r);
      MoveTwice(s, i, Missed(r), Answered(r, FreshEntry(cfg, s, r), s.now));
    }
  }

  lemma FreshEntryAfterMove(cfg: Settings, s: State, i: nat, r: Request)
    requires InCall(s, i) && s.tables != []
    ensures FreshEntry(cfg, Move(s, i, Missed(r)), r) == FreshEntry(cfg, s, r)
  {
    hide Uncached;
  }

  // ---------------------------------------------------------------- witnesses

  /** With colons in the ids a request can be answered with another route's prediction: first
      ("1:2", "3") is asked and stored, then ("1", "2:3") at the same moment. */
  lemma ColonsMixRoutes(cfg: Settings) returns (es: seq<Step>, reply: Stored)
    requires cfg.minObservations >= 1 && cfg.ttl >= 1
    ensures Legal(cfg, Init(2, [], 0), es)
    ensures Exec(cfg, Init(2, [], 0), es).calls
         == [Answered(Request("1:2", "3", 0), reply, 0), Answered(Request("1", "2:3", 0), reply, 0)]
    ensures reply.value.route == "1:2"
  {
    hide Legal, Exec;
    var s0, q, r := Init(2, [], 0), Request("1:2", "3", 0), Request("1", "2:3", 0);
    assert KeyOf(q) == KeyOf(r) by {
      Collision("1", "2", "3", HourOf(0), WeekdayOf(0));
      assert "1" + ":" + "2" == "1:2" && "2" + ":" + "3" == "2:3";
    }
    NoRun(cfg, s0);
    es := Extend(cfg, s0, [], Ask(0, q));
    es := Extend(cfg, s0, es, Window(0));
    es := Extend(cfg, s0, es, QueryBucket(0));
    es := Extend(cfg, s0, es, QueryRoute(0));
    es := Extend(cfg, s0, es, Put(0));
    reply := Exec(cfg, s0, es).redis[KeyOf(q)];
    es := Extend(cfg, s0, es, Ask(1, r));
  }

  lemma Join(cfg: Settings, s: State, es: seq<Step>, fs: seq<Step>) returns (gs: seq<Step>)
    requires Legal(cfg, s, es) && Legal(cfg, Exec(cfg, s, es), fs)
    ensures gs == es + fs && Legal(cfg, s, gs) && Exec(cfg, s, gs) == Exec(cfg, Exec(cfg, s, es), fs)
  {
    ExecAppend(cfg, s, es, fs);
    gs := es + fs;
  }

  lemma OneRowCounts(cfg: Settings, row: Observation, r: Request, since: int)
    requires 1 <= cfg.minObservations && OnRoute(row, r.route, since)
    ensures Uncached(cfg, [], since, r).sampleSize == 0 && Uncached(cfg, [row], since, r).sampleSize == 1
  {
    assert [row][1..] == [];
    assert RouteSamples([row], r.route, since) == [row.delay];
  }

  /** A request that misses and makes both queries at once, but has yet to store. */
  lemma AskAndQuery(cfg: Settings, s: State, i: nat, r: Request) returns (es: seq<Step>)
    requires Enabled(s, Ask(i, r)) && s.tables != [] && !Alive(cfg, s, KeyOf(r))
    ensures var v, since := |s.tables| - 1, s.now - cfg.historySeconds;
            Legal(cfg, s, es) && Exec(cfg, s, es)
            == Move(s, i, Computed(Uncached(cfg, s.tables[v], since, r), Origin(r, since, v, v)))
  {
    hide KeyOf, Uncached, Legal, Exec, AfterQueries;
    var since := s.now - cfg.historySeconds;
    NoRun(cfg, s);
    es := Extend(cfg, s, [], Ask(i, r));
    var s1 := Exec(cfg, s, es);
    MoveTwice(s, i, Missed(r), Windowed(r, since));
    assert AfterWindow(cfg, s1, i) == Move(s, i, Windowed(r, since));
    var rest := QueriesAreARun(cfg, s1, i);
    QueriesCompute(cfg, Move(s, i, Windowed(r, since)), i);
    var v := |s.tables| - 1;
    MoveTwice(s, i, Windowed(r, since), Computed(Uncached(cfg, s.tables[v], since, r), Origin(r, since, v, v)));
    es := Join(cfg, s, es, rest);
  }

  /** A slow miss can store last.  For any positive threshold and any row on the requested route:
      request 0 computes its value before the row is ingested, request 1 stores the value with the row,
      and request 0 then puts its own, different one over it. */
  lemma StaleValueCanReplaceFresh(cfg: Settings, row: Observation, r: Request) returns (es: seq<Step>, fs: seq<Step>)
    requires 1 <= cfg.minObservations && OnRoute(row, r.route, -cfg.historySeconds)
    ensures Legal(cfg, Init(2, [], 0), es) && Legal(cfg, Exec(cfg, Init(2, [], 0), es), fs)
    ensures var s := Exec(cfg, Init(2, [], 0), es);
            s.tables == [[], [row]] && KeyOf(r) in s.redis
            && s.redis[KeyOf(r)].value == Uncached(cfg, [row], -cfg.historySeconds, r)
    ensures var s := Exec(cfg, Exec(cfg, Init(2, [], 0), es), fs);
            s.tables == [[], [row]] && KeyOf(r) in s.redis
            && s.redis[KeyOf(r)].value == Uncached(cfg, [], -cfg.historySeconds, r)
            && s.redis[KeyOf(r)].value != Uncached(cfg, [row], -cfg.historySeconds, r)
  {
    hide KeyOf, Uncached, Legal, Exec;
    var s0 := Init(2, [], 0);
    es := AskAndQuery(cfg, s0, 0, r);
    es := Extend(cfg, s0, es, Ingest([row]));
    var other := AskAndQuery(cfg, Exec(cfg, s0, es), 1, r);
    es := Join(cfg, s0, es, other);
    es := Extend(cfg, s0, es, Put(1));
    NoRun(cfg, Exec(cfg, s0, es));
    fs := Extend(cfg, Exec(cfg, s0, es), [], Put(0));
    OneRowCounts(cfg, row, r, -cfg.historySeconds);
  }

  lemma NoRun(cfg: Settings, s: State)
    ensures Legal(cfg, s, []) && Exec(cfg, s, []) == s
  {
  }

  ghost predicate AllInBucket(rows: Table, r: Request, since: int) {
    forall i :: 0 <= i < |rows| ==> InBucket(rows[i], r, since)
  }

  lemma {:induction false} BucketRowsCount(rows: Table, r: Request, since: int)
    requires AllInBucket(rows, r, since)
    ensures |BucketSamples(rows, r, since)| == |RouteSamples(rows, r.route, since)| == |rows|
  {
    if rows != [] {
      BucketRowsCount(rows[1..], r, since);
    }
  }

  /** An ingest between the two queries can produce a reply that no table version gives, whatever the
      positive threshold k: k - 1 rows of the bucket at the first query, one more at the second. */
  lemma QueriesCanStraddleAnIngest(cfg: Settings, rows: Table, r: Request) returns (es: seq<Step>)
    requires 1 <= cfg.minObservations == |rows| && AllInBucket(rows, r, -cfg.historySeconds)
    ensures Legal(cfg, Init(1, rows[1..], 0), es)
    ensures var s := Exec(cfg, Init(1, rows[1..], 0), es);
            |s.calls| == 1 && s.calls[0].Answered? && s.tables == [rows[1..], rows] &&
            forall v :: 0 <= v < |s.tables| ==>
              s.calls[0].reply.value != Uncached(cfg, s.tables[v], s.calls[0].reply.origin.since,
                                                 s.calls[0].reply.origin.request)
  {
    hide KeyOf, Compose, FromBucket, FromFallback, Legal, Exec, BucketSamples, RouteSamples, MeanOf, PercentileOf;
    var few := rows[1..];
    var s0, since := Init(1, few, 0), -cfg.historySeconds;
    BucketRowsCount(few, r, since);
    NoRun(cfg, s0);
    es := Extend(cfg, s0, [], Ask(0, r));
    es := Extend(cfg, s0, es, Window(0));
    es := Extend(cfg, s0, es, QueryBucket(0));
    es := Extend(cfg, s0, es, Ingest(rows));
    es := Extend(cfg, s0, es, QueryRoute(0));
    es := Extend(cfg, s0, es, Put(0));
    ComposeCases(cfg, few, rows, since, r);
    TornReplyDiffers(cfg, rows, r, since);
  }

  lemma TornReplyDiffers(cfg: Settings, rows: Table, r: Request, since: int)
    requires 1 <= cfg.minObservations == |rows| && AllInBucket(rows, r, since)
    ensures Compose(cfg, rows[1..], rows, since, r) != Uncached(cfg, rows[1..], since, r)
    ensures Compose(cfg, rows[1..], rows, since, r) != Uncached(cfg, rows, since, r)
  {
    hide BucketSamples, RouteSamples, MeanOf, PercentileOf, Confidence;
    BucketRowsCount(rows, r, since);
    BucketRowsCount(rows[1..], r, since);
  }
}
