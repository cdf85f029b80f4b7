/** The lazy model cache as a step system: any number of get_model calls, a trainer that rewrites
    the artefact file, and reset_cache.  Each step is one indivisible action of one participant;
    every interleaving of callers and trainer is a sequence of such steps.

    Stamps are st_mtime_ns values (or S3 object generations); every write takes a larger one.  An
    artefact is identified by the stamp its writer finished at.  A file caught in the middle of a
    write does not load. */
module ModelCache {
  import opened Basics

  datatype FileState = Absent | Torn | Whole

  datatype File = File(stamp: nat, state: FileState)

  /** _CacheEntry: which artefact is held, and the version label it was filed under. */
  datatype Entry = Entry(content: nat, version: nat)

  datatype Outcome =
    | Served(asked: nat, content: nat)
    | LoadFailed(asked: nat)
    | NoArtefact
    | CacheDropped

  /** Where a participant stands in get_model or reset_cache. */
  datatype Call =
    | Idle
    | Statted(v: nat)               // version read; first look at _cache to come
    | Queued(v: nat)                // first look missed; waiting at `with _LOCK`
    | Holding(v: nat)               // lock taken; second look to come
    | Loading(v: nat)               // second look missed; load_model to come
    | Loaded(v: nat, content: nat)  // load_model returned; _cache not yet assigned
    | Resetting                     // reset_cache inside the lock
    | Leaving(outcome: Outcome)     // about to leave the locked block
    | Done(outcome: Outcome)

  /** `published` records the stamps of all artefacts ever written to completion. */
  datatype State = State(file: File, published: set<nat>, lock: Option<nat>,
                         cache: Option<Entry>, calls: seq<Call>)

  datatype Step =
    | Stat(t: nat) | Look(t: nat) | Acquire(t: nat) | LookAgain(t: nat)
    | Load(t: nat) | Install(t: nat) | Release(t: nat)
    | EnterReset(t: nat) | Drop(t: nat)
    | BeginWrite(stamp: nat) | WriteMore(stamp: nat) | FinishWrite(stamp: nat)

  predicate Hits(cache: Option<Entry>, v: nat) {
    cache.Some? && cache.value.version == v
  }

  predicate MayStart(c: Call) {
    c.Idle? || c.Done?
  }

  predicate Enabled(s: State, e: Step) {
    match e
    case Stat(t) => t < |s.calls| && MayStart(s.calls[t])
    case Look(t) => t < |s.calls| && s.calls[t].Statted?
    case Acquire(t) => t < |s.calls| && s.calls[t].Queued? && s.lock.None?
    case LookAgain(t) => t < |s.calls| && s.calls[t].Holding?
    case Load(t) => t < |s.calls| && s.calls[t].Loading?
    case Install(t) => t < |s.calls| && s.calls[t].Loaded?
    case Release(t) => t < |s.calls| && s.calls[t].Leaving?
    case EnterReset(t) => t < |s.calls| && MayStart(s.calls[t]) && s.lock.None?
    case Drop(t) => t < |s.calls| && s.calls[t].Resetting?
    case BeginWrite(x) => s.file.stamp < x
    case WriteMore(x) => s.file.state.Torn? && s.file.stamp < x
    case FinishWrite(x) => s.file.state.Torn? && s.file.stamp < x
  }

  function Move(s: State, t: nat, c: Call): State
    requires t < |s.calls|
  {
    s.(calls := s.calls[t := c])
  }

  function Apply(s: State, e: Step): State
    requires Enabled(s, e)
  {
    match e
    case Stat(t) =>
      Move(s, t, if s.file.state.Absent? then Done(NoArtefact) else Statted(s.file.stamp))
    case Look(t) =>
      var v := s.calls[t].v;
      Move(s, t, if Hits(s.cache, v) then Done(Served(v, s.cache.value.content)) else Queued(v))
    case Acquire(t) =>
      Move(s, t, Holding(s.calls[t].v)).(lock := Some(t))
    case LookAgain(t) =>
      var v := s.calls[t].v;
      Move(s, t, if Hits(s.cache, v) then Leaving(Served(v, s.cache.value.content)) else Loading(v))
    case Load(t) =>
      var v := s.calls[t].v;
      Move(s, t, if s.file.state.Whole? then Loaded(v, s.file.stamp) else Leaving(LoadFailed(v)))
    case Install(t) =>
      var Loaded(v, content) := s.calls[t];
      Move(s, t, Leaving(Served(v, content))).(cache := Some(Entry(content, v)))
    case Release(t) =>
      Move(s, t, Done(s.calls[t].outcome)).(lock := None)
    case EnterReset(t) =>
      Move(s, t, Resetting).(lock := Some(t))
    case Drop(t) =>
      Move(s, t, Leaving(CacheDropped)).(cache := None)
    case BeginWrite(x) =>
      s.(file := File(x, Torn))
    case WriteMore(x) =>
      s.(file := File(x, Torn))
    case FinishWrite(x) =>
      s.(file := File(x, Whole), published := s.published + {x})
  }

  ghost predicate Legal(s: State, es: seq<Step>)
    decreases |es|
  {
    es == [] || (Enabled(s, es[0]) && Legal(Apply(s, es[0]), es[1..]))
  }

  ghost function Exec(s: State, es: seq<Step>): State
    requires Legal(s, es)
    decreases |es|
  {
    if es == [] then s else Exec(Apply(s, es[0]), es[1..])
  }

  lemma {:induction false} ExecAppend(s: State, es: seq<Step>, fs: seq<Step>)
    requires Legal(s, es) && Legal(Exec(s, es), fs)
    ensures Legal(s, es + fs)
    ensures Exec(s, es + fs) == Exec(Exec(s, es), fs)
    decreases |es|
  {
    if es == [] {
      assert es + fs == fs;
    } else {
      assert (es + fs)[0] == es[0] && (es + fs)[1..] == es[1..] + fs;
      ExecAppend(Apply(s, es[0]), es[1..], fs);
    }
  }

  lemma ExecOne(s: State, e: Step)
    requires Enabled(s, e)
    ensures Legal(s, [e]) && Exec(s, [e]) == Apply(s, e)
  {
    assert [e][1..] == [];
    assert Legal(Apply(s, e), []);
    assert Legal(s, [e]);
  }

  // ---------------------------------------------------------------- the invariant

  /** Inside the `with _LOCK` block. */
  predicate Critical(c: Call) {
    c.Holding? || c.Loading? || c.Loaded? || c.Resetting? || c.Leaving?
  }

  ghost predicate OutcomeSound(s: State, o: Outcome) {
    match o
    case Served(v, c) => v <= c <= s.file.stamp && c in s.published
    case LoadFailed(v) => v <= s.file.stamp
    case NoArtefact => true
    case CacheDropped => true
  }

  ghost predicate CallSound(s: State, c: Call) {
    match c
    case Idle => true
    case Resetting => true
    case Statted(v) => v <= s.file.stamp
    case Queued(v) => v <= s.file.stamp
    case Holding(v) => v <= s.file.stamp
    case Loading(v) => v <= s.file.stamp && !Hits(s.cache, v)
    case Loaded(v, d) => v <= d <= s.file.stamp && d in s.published && !Hits(s.cache, v) &&
      (s.cache.Some? ==> s.cache.value.content <= d)
    case Leaving(o) => OutcomeSound(s, o)
    case Done(o) => OutcomeSound(s, o)
  }

  ghost predicate Inv(s: State) {
    && (s.lock.Some? ==> s.lock.value < |s.calls|)
    && (forall t :: 0 <= t < |s.calls| ==> (Critical(s.calls[t]) <==> s.lock == Some(t)))
    && (s.file.state.Whole? ==> s.file.stamp in s.published)
    && (s.cache.Some? ==> s.cache.value.version <= s.cache.value.content <= s.file.stamp
                          && s.cache.value.content in s.published)
    && (forall t :: 0 <= t < |s.calls| ==> CallSound(s, s.calls[t]))
  }

  /** n idle callers, nothing cached, no artefact yet. */
  function Init(n: nat): State {
    State(File(0, Absent), {}, None, None, seq(n, i => Idle))
  }

  lemma InvInit(n: nat)
    ensures Inv(Init(n))
  {
  }

  /** The participant a step belongs to; None for the trainer. */
  function Mover(e: Step): Option<nat> {
    if e.BeginWrite? || e.WriteMore? || e.FinishWrite? then None else Some(e.t)
  }

  lemma OthersStandStill(s: State, e: Step)
    requires Enabled(s, e)
    ensures |Apply(s, e).calls| == |s.calls|
    ensures Mover(e).Some? ==> Mover(e).value < |s.calls|
    ensures forall t :: 0 <= t < |s.calls| && Mover(e) != Some(t) ==> Apply(s, e).calls[t] == s.calls[t]
    ensures s.file.stamp <= Apply(s, e).file.stamp && s.published <= Apply(s, e).published
  {
    hide Hits;
  }

  lemma LockStep(s: State, e: Step)
    requires Inv(s) && Enabled(s, e)
    ensures var s' := Apply(s, e);
            (s'.lock.Some? ==> s'.lock.value < |s'.calls|) &&
            forall t :: 0 <= t < |s'.calls| ==> (Critical(s'.calls[t]) <==> s'.lock == Some(t))
  {
    hide CallSound, Hits;
  }

  lemma CacheStep(s: State, e: Step)
    requires Inv(s) && Enabled(s, e)
    ensures var s' := Apply(s, e);
            && (s'.file.state.Whole? ==> s'.file.stamp in s'.published)
            && (s'.cache.Some? ==> s'.cache.value.version <= s'.cache.value.content <= s'.file.stamp
                                   && s'.cache.value.content in s'.published)
  {
    hide Critical, Hits;
    if e.Install? {
      assert CallSound(s, s.calls[e.t]);
    }
  }

  /** While a call is inside the locked block, nobody else changes the cache. */
  lemma OnlyHolderChangesCache(s: State, e: Step, t: nat)
    requires Inv(s) && Enabled(s, e) && t < |s.calls| && Critical(s.calls[t]) && Mover(e) != Some(t)
    ensures Apply(s, e).cache == s.cache
  {
    hide CallSound, Hits;
    assert s.lock == Some(t);
  }

  lemma UnmovedCallStep(s: State, e: Step, t: nat)
    requires Inv(s) && Enabled(s, e) && t < |s.calls| && Mover(e) != Some(t)
    ensures CallSound(Apply(s, e), s.calls[t])
  {
    hide Apply;
    assert CallSound(s, s.calls[t]);
    OthersStandStill(s, e);
    if Critical(s.calls[t]) {
      OnlyHolderChangesCache(s, e, t);
    }
  }

  lemma MovedCallStep(s: State, e: Step)
    requires Inv(s) && Enabled(s, e) && Mover(e).Some? && Mover(e).value < |s.calls|
    ensures CallSound(Apply(s, e), Apply(s, e).calls[Mover(e).value])
  {
    assert CallSound(s, s.calls[e.t]);
  }

  lemma InvStep(s: State, e: Step)
    requires Inv(s) && Enabled(s, e)
    ensures Inv(Apply(s, e))
  {
    hide CallSound, Apply, Critical, Enabled;
    OthersStandStill(s, e);
    LockStep(s, e);
    CacheStep(s, e);
    var s' := Apply(s, e);
    forall t | 0 <= t < |s'.calls|
      ensures CallSound(s', s'.calls[t])
    {
      if Mover(e) == Some(t) {
        MovedCallStep(s, e);
      } else {
        UnmovedCallStep(s, e, t);
      }
    }
  }

  lemma {:induction false} InvRun(s: State, es: seq<Step>)
    requires Inv(s) && Legal(s, es)
    ensures Inv(Exec(s, es))
    decreases |es|
  {
    if es != [] {
      InvStep(s, es[0]);
      InvRun(Apply(s, es[0]), es[1..]);
    }
  }

  lemma {:induction false} CallersStay(s: State, es: seq<Step>)
    requires Legal(s, es)
    ensures |Exec(s, es).calls| == |s.calls|
    decreases |es|
  {
    hide Apply, Enabled;
    if es != [] {
      OthersStandStill(s, es[0]);
      CallersStay(Apply(s, es[0]), es[1..]);
    }
  }

  /** In every interleaving, a call that read version v is answered with nothing, or with an
      artefact that was written to completion, at v or later. */
  lemma NeverStalerThanAsked(n: nat, es: seq<Step>, t: nat)
    requires Legal(Init(n), es) && t < n
    ensures |Exec(Init(n), es).calls| == n
    ensures var s := Exec(Init(n), es);
            s.calls[t].Done? && s.calls[t].outcome.Served? ==>
              s.calls[t].outcome.asked <= s.calls[t].outcome.content && s.calls[t].outcome.content in s.published
  {
    hide Apply, Enabled;
    InvInit(n);
    CallersStay(Init(n), es);
    InvRun(Init(n), es);
    assert CallSound(Exec(Init(n), es), Exec(Init(n), es).calls[t]);
  }

  // ---------------------------------------------------------------- what moves the cache

  /** _cache changes only in the hands of the call that holds the lock, by its own Install or
      Drop; in particular a load that fails leaves the previous entry in place. */
  lemma CacheChangesOnlyUnderLock(s: State, e: Step)
    requires Inv(s) && Enabled(s, e) && Apply(s, e).cache != s.cache
    ensures e.Install? || e.Drop?
    ensures s.lock == Some(e.t)
    ensures forall t :: 0 <= t < |s.calls| && t != e.t ==> !Critical(s.calls[t])
  {
    assert Critical(s.calls[e.t]);
  }

  /** Everything cached or about to be cached is at least as new as artefact f. */
  ghost predicate AtLeast(s: State, f: nat) {
    && f <= s.file.stamp
    && (s.cache.Some? ==> f <= s.cache.value.content)
    && (forall t :: 0 <= t < |s.calls| && s.calls[t].Loaded? ==> f <= s.calls[t].content)
  }

  lemma {:induction false} AtLeastRun(s: State, es: seq<Step>, f: nat)
    requires Inv(s) && AtLeast(s, f) && Legal(s, es)
    ensures AtLeast(Exec(s, es), f)
    decreases |es|
  {
    if es != [] {
      InvStep(s, es[0]);
      var s' := Apply(s, es[0]);
      forall t | 0 <= t < |s'.calls| && s'.calls[t].Loaded?
        ensures f <= s'.calls[t].content
      {
        assert s.calls[t].Loaded? ==> f <= s.calls[t].content;
      }
      AtLeastRun(s', es[1..], f);
    }
  }

  /** The cached artefact never goes back to an older one, whatever happens in between, resets
      included. */
  lemma ContentNeverGoesBack(s: State, es: seq<Step>)
    requires Inv(s) && Legal(s, es) && s.cache.Some? && Exec(s, es).cache.Some?
    ensures s.cache.value.content <= Exec(s, es).cache.value.content
  {
    forall t | 0 <= t < |s.calls| && s.calls[t].Loaded?
      ensures s.cache.value.content <= s.calls[t].content
    {
      assert CallSound(s, s.calls[t]);
    }
    AtLeastRun(s, es, s.cache.value.content);
  }

  // ---------------------------------------------------------------- settling

  /** A call that may still load for a version other than the file's present one. */
  predicate Stale(c: Call, stamp: nat) {
    (c.Statted? || c.Queued? || c.Holding? || c.Loading?) && c.v != stamp
  }

  function CountStale(calls: seq<Call>, stamp: nat): nat {
    if calls == [] then 0
    else (if Stale(calls[0], stamp) then 1 else 0) + CountStale(calls[1..], stamp)
  }

  lemma {:induction false} CountStaleUpdate(calls: seq<Call>, t: nat, c: Call, stamp: nat)
    requires t < |calls|
    ensures CountStale(calls[t := c], stamp) + (if Stale(calls[t], stamp) then 1 else 0)
         == CountStale(calls, stamp) + (if Stale(c, stamp) then 1 else 0)
  {
    if t == 0 {
      assert calls[t := c][1..] == calls[1..];
    } else {
      assert calls[t := c][1..] == calls[1..][t - 1 := c];
      CountStaleUpdate(calls[1..], t - 1, c, stamp);
    }
  }

  /** The label _cache will carry once the lock holder has assigned it. */
  function PendingLabel(s: State): Option<nat> {
    if s.lock.Some? && s.lock.value < |s.calls| && s.calls[s.lock.value].Loaded?
    then Some(s.calls[s.lock.value].v)
    else if s.cache.Some? then Some(s.cache.value.version)
    else None
  }

  /** Two loads for every stale call (its own, and the one that repairs the label after it), and
      one more while the label is not the file's stamp. */
  function Potential(s: State): nat {
    2 * CountStale(s.calls, s.file.stamp) + (if PendingLabel(s) == Some(s.file.stamp) then 0 else 1)
  }

  /** No trainer and no reset_cache. */
  predicate Quiet(e: Step) {
    !e.BeginWrite? && !e.WriteMore? && !e.FinishWrite? && !e.EnterReset? && !e.Drop?
  }

  predicate AllQuiet(es: seq<Step>) {
    forall i :: 0 <= i < |es| ==> Quiet(es[i])
  }

  function Loads(es: seq<Step>): nat {
    if es == [] then 0 else (if es[0].Load? then 1 else 0) + Loads(es[1..])
  }

  lemma PotentialPaysForLoad(s: State, e: Step)
    requires Inv(s) && Enabled(s, e) && Quiet(e) && s.file.state.Whole?
    ensures Potential(Apply(s, e)) + (if e.Load? then 1 else 0) <= Potential(s)
  {
    var s' := Apply(s, e);
    assert Critical(s.calls[e.t]) <==> s.lock == Some(e.t);
    assert CallSound(s, s.calls[e.t]);
    CountStaleUpdate(s.calls, e.t, s'.calls[e.t], s.file.stamp);
  }

  lemma {:induction false} PotentialBoundsLoads(s: State, es: seq<Step>)
    requires Inv(s) && Legal(s, es) && AllQuiet(es) && s.file.state.Whole?
    ensures Exec(s, es).file == s.file
    ensures Loads(es) + Potential(Exec(s, es)) <= Potential(s)
    decreases |es|
  {
    if es != [] {
      PotentialPaysForLoad(s, es[0]);
      InvStep(s, es[0]);
      PotentialBoundsLoads(Apply(s, es[0]), es[1..]);
    }
  }

  /** Once the file has settled with k calls still holding an older version, all further calls
      together load it at most 2k + 1 times, however many there are and however they interleave. */
  lemma LoadsAfterSettling(s: State, es: seq<Step>, k: nat)
    requires Inv(s) && Legal(s, es) && AllQuiet(es) && s.file.state.Whole?
    requires CountStale(s.calls, s.file.stamp) <= k
    ensures Loads(es) <= 2 * k + 1
  {
    PotentialBoundsLoads(s, es);
  }

  /** The file's own label is installed and no call for an older version is in flight. */
  ghost predicate Settled(s: State) {
    s.file.state.Whole? && Hits(s.cache, s.file.stamp) && Potential(s) == 0
  }

  lemma {:induction false} NoneStale(calls: seq<Call>, stamp: nat, t: nat)
    requires CountStale(calls, stamp) == 0 && t < |calls|
    ensures !Stale(calls[t], stamp)
  {
    if t > 0 {
      NoneStale(calls[1..], stamp, t - 1);
    }
  }

  function CountQueued(calls: seq<Call>): nat {
    if calls == [] then 0 else (if calls[0].Queued? then 1 else 0) + CountQueued(calls[1..])
  }

  lemma {:induction false} CountQueuedUpdate(calls: seq<Call>, t: nat, c: Call)
    requires t < |calls|
    ensures CountQueued(calls[t := c]) + (if calls[t].Queued? then 1 else 0)
         == CountQueued(calls) + (if c.Queued? then 1 else 0)
  {
    if t == 0 {
      assert calls[t := c][1..] == calls[1..];
    } else {
      assert calls[t := c][1..] == calls[1..][t - 1 := c];
      CountQueuedUpdate(calls[1..], t - 1, c);
    }
  }

  function Acquires(es: seq<Step>): nat {
    if es == [] then 0 else (if es[0].Acquire? then 1 else 0) + Acquires(es[1..])
  }

  lemma SettledStep(s: State, e: Step)
    requires Inv(s) && Settled(s) && Enabled(s, e) && Quiet(e)
    ensures !e.Load?
    ensures Settled(Apply(s, e)) && Apply(s, e).cache == s.cache
    ensures CountQueued(Apply(s, e).calls) + (if e.Acquire? then 1 else 0) == CountQueued(s.calls)
  {
    NoneStale(s.calls, s.file.stamp, e.t);
    assert CallSound(s, s.calls[e.t]);
    assert Critical(s.calls[e.t]) <==> s.lock == Some(e.t);
    PotentialPaysForLoad(s, e);
    CountQueuedUpdate(s.calls, e.t, Apply(s, e).calls[e.t]);
  }

  /** From then on no call reads the file, the entry stays as it is, and the lock is taken only by the
      calls that were already waiting for it, once each: with none waiting, never. */
  lemma {:induction false} SettledForGood(s: State, es: seq<Step>)
    requires Inv(s) && Settled(s) && Legal(s, es) && AllQuiet(es)
    ensures Loads(es) == 0 && Exec(s, es).cache == s.cache && Settled(Exec(s, es))
    ensures Acquires(es) + CountQueued(Exec(s, es).calls) == CountQueued(s.calls)
    ensures forall i :: 0 <= i < |es| ==> !es[i].Load? && (CountQueued(s.calls) == 0 ==> !es[i].Acquire?)
    decreases |es|
  {
    hide Apply, Enabled, Inv, Settled;
    if es != [] {
      SettledStep(s, es[0]);
      InvStep(s, es[0]);
      SettledForGood(Apply(s, es[0]), es[1..]);
      assert forall i :: 0 < i < |es| ==> es[i] == es[1..][i - 1];
    }
  }

  // ---------------------------------------------------------------- label falls

  /** The version label goes back in this step. */
  predicate Falls(s: State, e: Step)
    requires Enabled(s, e)
  {
    s.cache.Some? && Apply(s, e).cache.Some? && Apply(s, e).cache.value.version < s.cache.value.version
  }

  ghost function LabelFalls(s: State, es: seq<Step>): nat
    requires Legal(s, es)
    decreases |es|
  {
    if es == [] then 0 else (if Falls(s, es[0]) then 1 else 0) + LabelFalls(Apply(s, es[0]), es[1..])
  }

  /** The lock holder has loaded for an older version and has only to assign it. */
  predicate AboutToMislabel(s: State) {
    s.lock.Some? && s.lock.value < |s.calls| && s.calls[s.lock.value].Loaded?
    && s.calls[s.lock.value].v != s.file.stamp
  }

  function FallPotential(s: State): nat {
    CountStale(s.calls, s.file.stamp) + (if AboutToMislabel(s) then 1 else 0)
  }

  lemma PotentialPaysForFall(s: State, e: Step)
    requires Inv(s) && Enabled(s, e) && Quiet(e)
    ensures FallPotential(Apply(s, e)) + (if Falls(s, e) then 1 else 0) <= FallPotential(s)
  {
    var s' := Apply(s, e);
    assert Critical(s.calls[e.t]) <==> s.lock == Some(e.t);
    assert CallSound(s, s.calls[e.t]);
    CountStaleUpdate(s.calls, e.t, s'.calls[e.t], s.file.stamp);
  }

  /** The version label, unlike the content, can go back, but in any run without trainer and reset
      only once for each call that read an older version, plus once for a lock holder that has
      already loaded for one; with no such call it never goes back. */
  lemma {:induction false} LabelFallsBounded(s: State, es: seq<Step>)
    requires Inv(s) && Legal(s, es) && AllQuiet(es)
    ensures LabelFalls(s, es) + FallPotential(Exec(s, es)) <= FallPotential(s)
    decreases |es|
  {
    hide Apply, Enabled, Inv, Falls, FallPotential;
    if es != [] {
      PotentialPaysForFall(s, es[0]);
      InvStep(s, es[0]);
      LabelFallsBounded(Apply(s, es[0]), es[1..]);
    }
  }

  lemma {:induction false} LabelFallsAppend(s: State, es: seq<Step>, fs: seq<Step>)
    requires Legal(s, es) && Legal(Exec(s, es), fs)
    ensures Legal(s, es + fs) && LabelFalls(s, es + fs) == LabelFalls(s, es) + LabelFalls(Exec(s, es), fs)
    decreases |es|
  {
    hide Apply, Enabled, Falls;
    ExecAppend(s, es, fs);
    if es == [] {
      assert es + fs == fs;
    } else {
      assert (es + fs)[0] == es[0] && (es + fs)[1..] == es[1..] + fs;
      LabelFallsAppend(Apply(s, es[0]), es[1..], fs);
    }
  }

  // ---------------------------------------------------------------- witnesses

  lemma {:induction false} LoadsAppend(es: seq<Step>, fs: seq<Step>)
    ensures Loads(es + fs) == Loads(es) + Loads(fs)
  {
    if es == [] {
      assert es + fs == fs;
    } else {
      assert (es + fs)[1..] == es[1..] + fs;
      LoadsAppend(es[1..], fs);
    }
  }

  lemma Extend(s: State, es: seq<Step>, e: Step) returns (fs: seq<Step>)
    requires Legal(s, es) && Enabled(Exec(s, es), e)
    ensures fs == es + [e] && Legal(s, fs) && Exec(s, fs) == Apply(Exec(s, es), e)
    ensures Loads(fs) == Loads(es) + (if e.Load? then 1 else 0)
    ensures LabelFalls(s, fs) == LabelFalls(s, es) + (if Falls(Exec(s, es), e) then 1 else 0)
    ensures AllQuiet(es) && Quiet(e) ==> AllQuiet(fs)
  {
    hide Apply, Enabled, Falls;
    var r := Exec(s, es);
    ExecOne(r, e);
    ExecAppend(s, es, [e]);
    LoadsAppend(es, [e]);
    LabelFallsAppend(s, es, [e]);
    assert [e][1..] == [];
    assert LabelFalls(Apply(r, e), []) == 0 && Loads([]) == 0;
    fs := es + [e];
  }

  lemma Join(s: State, es: seq<Step>, fs: seq<Step>) returns (gs: seq<Step>)
    requires Legal(s, es) && Legal(Exec(s, es), fs)
    ensures gs == es + fs && Legal(s, gs) && Exec(s, gs) == Exec(Exec(s, es), fs)
    ensures Loads(gs) == Loads(es) + Loads(fs)
    ensures LabelFalls(s, gs) == LabelFalls(s, es) + LabelFalls(Exec(s, es), fs)
    ensures AllQuiet(es) && AllQuiet(fs) ==> AllQuiet(gs)
  {
    hide Apply, Enabled, Falls, Quiet;
    ExecAppend(s, es, fs);
    LoadsAppend(es, fs);
    LabelFallsAppend(s, es, fs);
    gs := es + fs;
  }

  lemma EmptyRun(s: State)
    ensures Legal(s, []) && Exec(s, []) == s && Loads([]) == 0 && LabelFalls(s, []) == 0 && AllQuiet([])
  {
  }

  /** From the first look to the point where the file is read. */
  lemma MissToTheLock(s: State, t: nat) returns (es: seq<Step>)
    requires t < |s.calls| && s.calls[t].Statted? && s.lock.None? && !Hits(s.cache, s.calls[t].v)
    ensures Legal(s, es) && AllQuiet(es) && Loads(es) == 0 && LabelFalls(s, es) == 0
    ensures Exec(s, es) == Move(s, t, Loading(s.calls[t].v)).(lock := Some(t))
  {
    hide Legal, Exec, LabelFalls, Loads, AllQuiet;
    EmptyRun(s);
    es := Extend(s, [], Look(t));
    es := Extend(s, es, Acquire(t));
    es := Extend(s, es, LookAgain(t));
    assert Exec(s, es).calls == s.calls[t := Loading(s.calls[t].v)];
  }

  /** From there to the end of the call. */
  lemma LoadAndRelease(s: State, t: nat) returns (es: seq<Step>)
    requires t < |s.calls| && s.calls[t].Loading? && s.file.state.Whole?
    ensures Legal(s, es) && AllQuiet(es) && Loads(es) == 1
    ensures LabelFalls(s, es) == if s.cache.Some? && s.calls[t].v < s.cache.value.version then 1 else 0
    ensures Exec(s, es) == Move(s, t, Done(Served(s.calls[t].v, s.file.stamp)))
                             .(cache := Some(Entry(s.file.stamp, s.calls[t].v)), lock := None)
  {
    hide Legal, Exec, LabelFalls, Loads, AllQuiet;
    EmptyRun(s);
    es := Extend(s, [], Load(t));
    es := Extend(s, es, Install(t));
    es := Extend(s, es, Release(t));
    assert Exec(s, es).calls == s.calls[t := Done(Served(s.calls[t].v, s.file.stamp))];
  }

  /** A call that misses and runs to its end without interruption: one load, and the artefact is
      filed under the version the call read at its start, which is a fall if that is the older one. */
  lemma UninterruptedMiss(s: State, t: nat) returns (es: seq<Step>)
    requires t < |s.calls| && s.calls[t].Statted? && s.lock.None?
    requires s.file.state.Whole? && !Hits(s.cache, s.calls[t].v)
    ensures Legal(s, es) && AllQuiet(es) && Loads(es) == 1
    ensures LabelFalls(s, es) == if s.cache.Some? && s.calls[t].v < s.cache.value.version then 1 else 0
    ensures Exec(s, es) == Move(s, t, Done(Served(s.calls[t].v, s.file.stamp)))
                             .(cache := Some(Entry(s.file.stamp, s.calls[t].v)))
  {
    hide Legal, Exec, LabelFalls, Loads, AllQuiet, Apply, Enabled, Falls;
    es := MissToTheLock(s, t);
    var rest := LoadAndRelease(Exec(s, es), t);
    es := Join(s, es, rest);
  }

  /** A new call reads the file's stamp, misses, and puts that label in place. */
  lemma FreshMiss(s: State, t: nat) returns (es: seq<Step>)
    requires t < |s.calls| && MayStart(s.calls[t]) && s.lock.None?
    requires s.file.state.Whole? && !Hits(s.cache, s.file.stamp)
    ensures Legal(s, es) && AllQuiet(es) && Loads(es) == 1
    ensures LabelFalls(s, es) == if s.cache.Some? && s.file.stamp < s.cache.value.version then 1 else 0
    ensures Exec(s, es) == Move(s, t, Done(Served(s.file.stamp, s.file.stamp)))
                             .(cache := Some(Entry(s.file.stamp, s.file.stamp)))
  {
    hide Legal, Exec, LabelFalls, Loads, AllQuiet;
    EmptyRun(s);
    es := Extend(s, [], Stat(t));
    var s1 := Exec(s, es);
    var rest := UninterruptedMiss(s1, t);
    es := Join(s, es, rest);
    assert s1.calls[t := Done(Served(s.file.stamp, s.file.stamp))]
        == s.calls[t := Done(Served(s.file.stamp, s.file.stamp))];
  }

  /** Both bounds are attained for every k: k calls that read an old version finish one by one, and
      each undoes the label that a fresh call has just put in place. */
  lemma {:induction false} BoundAttained(s: State, k: nat) returns (es: seq<Step>)
    requires k < |s.calls| && MayStart(s.calls[k]) && s.lock.None?
    requires s.file.state.Whole? && (s.cache.Some? ==> s.cache.value.version < s.file.stamp)
    requires forall t :: 0 <= t < k ==> s.calls[t].Statted? && s.calls[t].v < s.file.stamp
    ensures Legal(s, es) && AllQuiet(es) && Loads(es) == 2 * k + 1 && LabelFalls(s, es) == k
    decreases k
  {
    hide Legal, Exec, LabelFalls, Loads, AllQuiet;
    es := FreshMiss(s, k);
    if k > 0 {
      var own := UninterruptedMiss(Exec(s, es), k - 1);
      es := Join(s, es, own);
      var rest := BoundAttained(Exec(s, es), k - 1);
      es := Join(s, es, rest);
    }
  }

  // ---------------------------------------------------------------- when the label can fall

  /** A call outside the lock that read an older version. */
  predicate Waiting(c: Call, stamp: nat) {
    (c.Statted? || c.Queued?) && c.v != stamp
  }

  ghost predicate SomeoneWaits(s: State) {
    exists t :: 0 <= t < |s.calls| && Waiting(s.calls[t], s.file.stamp)
  }

  /** The lock holder is bound to assign a label below the one in place. */
  predicate HolderWillLower(s: State) {
    && s.lock.Some? && s.lock.value < |s.calls| && s.cache.Some?
    && var c := s.calls[s.lock.value];
       (c.Holding? || c.Loading? || c.Loaded?) && c.v < s.cache.value.version
  }

  predicate ResetHolds(s: State) {
    s.lock.Some? && s.lock.value < |s.calls| && s.calls[s.lock.value].Resetting?
  }

  ghost predicate LabelCanFall(s: State) {
    !ResetHolds(s) && (SomeoneWaits(s) || HolderWillLower(s))
  }

  lemma SafeStep(s: State, e: Step)
    requires Inv(s) && !LabelCanFall(s) && Enabled(s, e) && Quiet(e)
    ensures !Falls(s, e) && !LabelCanFall(Apply(s, e))
  {
    var s' := Apply(s, e);
    assert Critical(s.calls[e.t]) <==> s.lock == Some(e.t);
    assert CallSound(s, s.calls[e.t]);
    if !ResetHolds(s) {
      forall t | 0 <= t < |s'.calls|
        ensures !Waiting(s'.calls[t], s'.file.stamp)
      {
        assert !Waiting(s.calls[t], s.file.stamp);
      }
    }
  }

  lemma {:induction false} SafeRun(s: State, es: seq<Step>)
    requires Inv(s) && !LabelCanFall(s) && Legal(s, es) && AllQuiet(es)
    ensures LabelFalls(s, es) == 0
    decreases |es|
  {
    hide Apply, Enabled, Inv, LabelCanFall, Falls;
    if es != [] {
      SafeStep(s, es[0]);
      InvStep(s, es[0]);
      SafeRun(Apply(s, es[0]), es[1..]);
    }
  }

  /** The holder runs to the end of the locked block; if it lowers the label, that is a fall. */
  lemma HolderFinishes(s: State, h: nat) returns (es: seq<Step>)
    requires Inv(s) && s.file.state.Whole? && s.lock == Some(h) && !ResetHolds(s)
    ensures Legal(s, es) && AllQuiet(es)
    ensures HolderWillLower(s) ==> LabelFalls(s, es) > 0
    ensures var r := Exec(s, es);
            r.lock.None? && r.file == s.file && |r.calls| == |s.calls|
            && forall t :: 0 <= t < |s.calls| && t != h ==> r.calls[t] == s.calls[t]
  {
    hide Legal, Exec, LabelFalls, Loads, AllQuiet;
    assert Critical(s.calls[h]);
    EmptyRun(s);
    es := [];
    if s.calls[h].Holding? {
      es := Extend(s, es, LookAgain(h));
    }
    var s1 := Exec(s, es);
    if s1.calls[h].Loading? {
      var rest := LoadAndRelease(s1, h);
      es := Join(s, es, rest);
    } else {
      if s1.calls[h].Loaded? {
        es := Extend(s, es, Install(h));
      }
      es := Extend(s, es, Release(h));
    }
  }

  /** With the lock free, a fresh call puts the file's label in place unless it is there already. */
  lemma LabelRaised(s: State, u: nat) returns (es: seq<Step>)
    requires Inv(s) && s.file.state.Whole? && s.lock.None? && u < |s.calls| && MayStart(s.calls[u])
    ensures Legal(s, es) && AllQuiet(es)
    ensures var r := Exec(s, es);
            r.lock.None? && r.file == s.file && Hits(r.cache, s.file.stamp) && |r.calls| == |s.calls|
            && forall t :: 0 <= t < |s.calls| && t != u ==> r.calls[t] == s.calls[t]
  {
    hide Legal, Exec, LabelFalls, Loads, AllQuiet;
    if Hits(s.cache, s.file.stamp) {
      EmptyRun(s);
      es := [];
    } else {
      es := FreshMiss(s, u);
    }
  }

  /** With the lock free and the file's label in place, a waiting call lowers it. */
  lemma WaiterLowers(s: State, t: nat) returns (es: seq<Step>)
    requires s.file.state.Whole? && s.lock.None? && Hits(s.cache, s.file.stamp)
    requires t < |s.calls| && Waiting(s.calls[t], s.file.stamp) && s.calls[t].v < s.file.stamp
    ensures Legal(s, es) && AllQuiet(es) && LabelFalls(s, es) > 0
  {
    hide Legal, Exec, LabelFalls, Loads, AllQuiet;
    if s.calls[t].Statted? {
      es := UninterruptedMiss(s, t);
    } else {
      EmptyRun(s);
      es := Extend(s, [], Acquire(t));
      es := Extend(s, es, LookAgain(t));
      var rest := LoadAndRelease(Exec(s, es), t);
      es := Join(s, es, rest);
    }
  }

  ghost predicate SomeRunLowers(s: State) {
    exists es :: Legal(s, es) && AllQuiet(es) && LabelFalls(s, es) > 0
  }

  lemma LabelFallIsReachable(s: State, u: nat)
    requires Inv(s) && s.file.state.Whole? && u < |s.calls| && MayStart(s.calls[u]) && LabelCanFall(s)
    ensures SomeRunLowers(s)
  {
    hide Legal, Exec, LabelFalls, Loads, AllQuiet;
    EmptyRun(s);
    var es: seq<Step> := [];
    if s.lock.Some? {
      es := HolderFinishes(s, s.lock.value);
    }
    if !HolderWillLower(s) {
      var t :| 0 <= t < |s.calls| && Waiting(s.calls[t], s.file.stamp);
      assert CallSound(s, s.calls[t]);
      assert s.lock.Some? ==> Critical(s.calls[s.lock.value]);
      InvRun(s, es);
      var raise := LabelRaised(Exec(s, es), u);
      es := Join(s, es, raise);
      var lower := WaiterLowers(Exec(s, es), t);
      es := Join(s, es, lower);
    }
  }

  /** Over a whole file, some run without trainer and reset lowers the label exactly if now a
      call outside the lock waits with an older version, or the lock holder is bound to assign a label
      below the one in place, and reset_cache does not hold the lock. */
  lemma LabelCanFallIff(s: State, u: nat)
    requires Inv(s) && s.file.state.Whole? && u < |s.calls| && MayStart(s.calls[u])
    ensures (exists es :: Legal(s, es) && AllQuiet(es) && LabelFalls(s, es) > 0) <==> LabelCanFall(s)
  {
    if LabelCanFall(s) {
      LabelFallIsReachable(s, u);
    } else {
      forall es | Legal(s, es) && AllQuiet(es)
        ensures LabelFalls(s, es) == 0
      {
        SafeRun(s, es);
      }
    }
  }

  lemma {:induction false} WaitersAreStale(s: State, calls: seq<Call>)
    requires forall t :: 0 <= t < |calls| ==> !Critical(calls[t])
    ensures CountStale(calls, s.file.stamp) > 0 <==>
              exists t :: 0 <= t < |calls| && Waiting(calls[t], s.file.stamp)
  {
    if calls != [] {
      WaitersAreStale(s, calls[1..]);
      if t :| 0 <= t < |calls[1..]| && Waiting(calls[1..][t], s.file.stamp) {
        assert Waiting(calls[t + 1], s.file.stamp);
      }
      if t :| 0 < t < |calls| && Waiting(calls[t], s.file.stamp) {
        assert Waiting(calls[1..][t - 1], s.file.stamp);
      }
    }
  }

  /** With the lock free that is: exactly if some call in flight holds an older version. */
  lemma FreeLockFallsIffStale(s: State, u: nat)
    requires Inv(s) && s.file.state.Whole? && s.lock.None? && u < |s.calls| && MayStart(s.calls[u])
    ensures (exists es :: Legal(s, es) && AllQuiet(es) && LabelFalls(s, es) > 0)
            <==> CountStale(s.calls, s.file.stamp) > 0
  {
    hide Legal, LabelFalls, AllQuiet;
    LabelCanFallIff(s, u);
    WaitersAreStale(s, s.calls);
  }

  /** Calls 0 .. k-1 read the version, one after the other. */
  lemma {:induction false} EveryoneStats(s: State, k: nat) returns (es: seq<Step>)
    requires k <= |s.calls| && !s.file.state.Absent?
    requires forall t :: 0 <= t < |s.calls| ==> s.calls[t].Idle?
    ensures Legal(s, es)
    ensures var r := Exec(s, es);
            r == s.(calls := r.calls) && |r.calls| == |s.calls| &&
            forall t :: 0 <= t < |s.calls| ==> r.calls[t] == if t < k then Statted(s.file.stamp) else Idle
    decreases k
  {
    es := [];
    if k > 0 {
      es := EveryoneStats(s, k - 1);
      var r := Exec(s, es);
      ExecOne(r, Stat(k - 1));
      ExecAppend(s, es, [Stat(k - 1)]);
      es := es + [Stat(k - 1)];
    }
  }

  lemma {:induction false} CountStalePrefix(calls: seq<Call>, k: nat, stamp: nat)
    requires k <= |calls|
    requires forall t :: 0 <= t < |calls| ==> (Stale(calls[t], stamp) <==> t < k)
    ensures CountStale(calls, stamp) == k
  {
    if calls != [] {
      CountStalePrefix(calls[1..], if k == 0 then 0 else k - 1, stamp);
    }
  }

  /** Neither bound can be improved: for every k some run from the start leaves k stale calls and no
      lock holder, and some continuation of it loads 2k + 1 times and sees the label fall k times. */
  lemma BoundsAreTight(k: nat) returns (es: seq<Step>, fs: seq<Step>)
    ensures Legal(Init(k + 1), es) && Legal(Exec(Init(k + 1), es), fs)
    ensures var s := Exec(Init(k + 1), es);
            s.file.state.Whole? && CountStale(s.calls, s.file.stamp) == k && FallPotential(s) == k
    ensures AllQuiet(fs) && Loads(fs) == 2 * k + 1 && LabelFalls(Exec(Init(k + 1), es), fs) == k
  {
    hide Legal, Exec, LabelFalls, Loads, AllQuiet, CountStale;
    var s0 := Init(k + 1);
    EmptyRun(s0);
    es := Extend(s0, [], BeginWrite(1));
    es := Extend(s0, es, FinishWrite(2));
    var stats := EveryoneStats(Exec(s0, es), k);
    es := Join(s0, es, stats);
    es := Extend(s0, es, BeginWrite(3));
    es := Extend(s0, es, FinishWrite(4));
    var s := Exec(s0, es);
    CountStalePrefix(s.calls, k, 4);
    fs := BoundAttained(s, k);
  }

  /** A run from the start in which the label goes back from 4 to 2: call 0 reads version 2, the
      trainer rewrites the file, call 1 loads the new artefact and files it under 4, and call 0
      then files the very same artefact under 2. */
  lemma LabelCanGoBack() returns (es: seq<Step>, fs: seq<Step>)
    ensures Legal(Init(2), es) && Legal(Exec(Init(2), es), fs)
    ensures Exec(Init(2), es).cache == Some(Entry(4, 4))
    ensures Exec(Exec(Init(2), es), fs).cache == Some(Entry(4, 2))
  {
    hide Legal, Exec, LabelFalls, Loads, AllQuiet;
    EmptyRun(Init(2));
    es := Extend(Init(2), [], BeginWrite(1));
    es := Extend(Init(2), es, FinishWrite(2));
    es := Extend(Init(2), es, Stat(0));
    es := Extend(Init(2), es, BeginWrite(3));
    es := Extend(Init(2), es, FinishWrite(4));
    var own := FreshMiss(Exec(Init(2), es), 1);
    es := Join(Init(2), es, own);
    fs := UninterruptedMiss(Exec(Init(2), es), 0);
  }
}
