/** get_model, reset_cache and save_model as the program writes them, on mutable fields.  Every
    method below is one indivisible action and is proved to be the corresponding step of
    ModelCache; GetModel and SaveModel string them together in program order. */
module ModelLoader {
  import opened Basics
  import opened ModelCache

  class Loader {
    var file: File
    var published: set<nat>
    var lock: Option<nat>
    var cache: Option<Entry>
    var calls: seq<Call>

    constructor (n: nat)
      ensures Snapshot() == Init(n)
    {
      file, published, lock, cache := File(0, Absent), {}, None, None;
      calls := seq(n, i => Idle);
    }

    function Snapshot(): State
      reads this
    {
      State(file, published, lock, cache, calls)
    }

    method DoStat(t: nat)
      requires Enabled(Snapshot(), Stat(t))
      modifies `calls
      ensures Snapshot() == Apply(old(Snapshot()), Stat(t))
    {
      if file.state.Absent? {
        calls := calls[t := Done(NoArtefact)];
      } else {
        var version := file.stamp;
        calls := calls[t := Statted(version)];
      }
    }

    method DoLook(t: nat)
      requires Enabled(Snapshot(), Look(t))
      modifies `calls
      ensures Snapshot() == Apply(old(Snapshot()), Look(t))
    {
      var version, cached := calls[t].v, cache;
      if cached.Some? && cached.value.version == version {
        calls := calls[t := Done(Served(version, cached.value.content))];
        return;
      }
      calls := calls[t := Queued(version)];
    }

    method DoAcquire(t: nat)
      requires Enabled(Snapshot(), Acquire(t))
      modifies `calls, `lock
      ensures Snapshot() == Apply(old(Snapshot()), Acquire(t))
    {
      lock := Some(t);
      calls := calls[t := Holding(calls[t].v)];
    }

    method DoLookAgain(t: nat)
      requires Enabled(Snapshot(), LookAgain(t))
      modifies `calls
      ensures Snapshot() == Apply(old(Snapshot()), LookAgain(t))
    {
      var version, cached := calls[t].v, cache;
      if cached.Some? && cached.value.version == version {
        calls := calls[t := Leaving(Served(version, cached.value.content))];
        return;
      }
      calls := calls[t := Loading(version)];
    }

    method DoLoad(t: nat)
      requires Enabled(Snapshot(), Load(t))
      modifies `calls
      ensures Snapshot() == Apply(old(Snapshot()), Load(t))
    {
      var version := calls[t].v;
      if !file.state.Whole? {
        calls := calls[t := Leaving(LoadFailed(version))];
        return;
      }
      calls := calls[t := Loaded(version, file.stamp)];
    }

    method DoInstall(t: nat)
      requires Enabled(Snapshot(), Install(t))
      modifies `calls, `cache
      ensures Snapshot() == Apply(old(Snapshot()), Install(t))
    {
      var Loaded(version, content) := calls[t];
      cache := Some(Entry(content, version));
      calls := calls[t := Leaving(Served(version, content))];
    }

    method DoRelease(t: nat)
      requires Enabled(Snapshot(), Release(t))
      modifies `calls, `lock
      ensures Snapshot() == Apply(old(Snapshot()), Release(t))
    {
      lock := None;
      calls := calls[t := Done(calls[t].outcome)];
    }

    method ResetCache(t: nat)
      requires Enabled(Snapshot(), EnterReset(t))
      modifies `calls, `lock, `cache
      ensures Snapshot() == Move(old(Snapshot()), t, Done(CacheDropped)).(cache := None, lock := None)
      ensures Legal(old(Snapshot()), [EnterReset(t), Drop(t), Release(t)])
      ensures Snapshot() == Exec(old(Snapshot()), [EnterReset(t), Drop(t), Release(t)])
    {
      ghost var s0 := Snapshot();
      lock := Some(t);
      calls := calls[t := Resetting];
      ghost var s1 := Snapshot();
      cache := None;
      calls := calls[t := Leaving(CacheDropped)];
      ghost var s2 := Snapshot();
      DoRelease(t);
      ExecOne(s0, EnterReset(t));
      ExecOne(s1, Drop(t));
      ExecOne(s2, Release(t));
      ExecAppend(s0, [EnterReset(t)], [Drop(t)]);
      ExecAppend(s0, [EnterReset(t)] + [Drop(t)], [Release(t)]);
      assert [EnterReset(t)] + [Drop(t)] + [Release(t)] == [EnterReset(t), Drop(t), Release(t)];
    }

    /** joblib.dump: the file is truncated first and complete only at the end. */
    method SaveModel(begin: nat, end: nat)
      requires file.stamp < begin < end
      modifies `file, `published
      ensures file == File(end, Whole) && published == old(published) + {end}
      ensures Legal(old(Snapshot()), [BeginWrite(begin), FinishWrite(end)])
      ensures Snapshot() == Exec(old(Snapshot()), [BeginWrite(begin), FinishWrite(end)])
    {
      ghost var s0 := Snapshot();
      file := File(begin, Torn);
      ghost var s1 := Snapshot();
      file, published := File(end, Whole), published + {end};
      ExecOne(s0, BeginWrite(begin));
      ExecOne(s1, FinishWrite(end));
      ExecAppend(s0, [BeginWrite(begin)], [FinishWrite(end)]);
      assert [BeginWrite(begin)] + [FinishWrite(end)] == [BeginWrite(begin), FinishWrite(end)];
    }

    /** _load_into_cache, with the lock held: a file that does not load leaves _cache alone. */
    method LoadIntoCache(t: nat) returns (ghost trace: seq<Step>)
      requires Enabled(Snapshot(), Load(t))
      modifies `calls, `cache
      ensures Legal(old(Snapshot()), trace) && Exec(old(Snapshot()), trace) == Snapshot()
      ensures Snapshot() ==
              if file.state.Whole?
              then Move(old(Snapshot()), t, Leaving(Served(old(calls[t].v), file.stamp)))
                     .(cache := Some(Entry(file.stamp, old(calls[t].v))))
              else Move(old(Snapshot()), t, Leaving(LoadFailed(old(calls[t].v))))
    {
      ghost var s0 := Snapshot();
      ExecOne(s0, Load(t));
      DoLoad(t);
      trace := [Load(t)];
      if calls[t].Loaded? {
        trace := Extend(s0, trace, Install(t));
        DoInstall(t);
      }
    }

    /** The body of the `with _LOCK` block, entered after a miss. */
    method LoadUnderLock(t: nat) returns (ghost trace: seq<Step>)
      requires Enabled(Snapshot(), Acquire(t)) && !Hits(cache, calls[t].v)
      modifies `calls, `lock, `cache
      ensures Legal(old(Snapshot()), trace) && Exec(old(Snapshot()), trace) == Snapshot()
      ensures Snapshot() ==
              if file.state.Whole?
              then Move(old(Snapshot()), t, Done(Served(old(calls[t].v), file.stamp)))
                     .(cache := Some(Entry(file.stamp, old(calls[t].v))))
              else Move(old(Snapshot()), t, Done(LoadFailed(old(calls[t].v))))
    {
      ghost var s0 := Snapshot();
      ExecOne(s0, Acquire(t));
      DoAcquire(t);
      trace := Extend(s0, [Acquire(t)], LookAgain(t));
      DoLookAgain(t);
      ghost var loads := LoadIntoCache(t);
      ExecAppend(s0, trace, loads);
      trace := Extend(s0, trace + loads, Release(t));
      DoRelease(t);
    }

    /** One whole call of get_model with nobody interfering: what it answers and what it leaves in
        the cache, in each of the four cases; `trace` is the run of ModelCache it performs. */
    method GetModel(t: nat) returns (model: Option<nat>, ghost trace: seq<Step>)
      requires t < |calls| && MayStart(calls[t]) && lock.None?
      modifies `calls, `lock, `cache
      ensures lock.None? && |calls| == old(|calls|)
      ensures forall u :: 0 <= u < |calls| && u != t ==> calls[u] == old(calls[u])
      ensures file.state.Absent? ==> model == None && cache == old(cache)
      ensures !file.state.Absent? && old(Hits(cache, file.stamp)) ==>
                model == Some(old(cache).value.content) && cache == old(cache)
      ensures !file.state.Absent? && !old(Hits(cache, file.stamp)) ==>
                if file.state.Whole?
                then model == Some(file.stamp) && cache == Some(Entry(file.stamp, file.stamp))
                else model == None && cache == old(cache)
      ensures Legal(old(Snapshot()), trace) && Exec(old(Snapshot()), trace) == Snapshot()
    {
      ghost var s0 := Snapshot();
      ExecOne(s0, Stat(t));
      DoStat(t);
      trace := [Stat(t)];
      if calls[t].Done? {
        return None, trace;
      }
      trace := Extend(s0, trace, Look(t));
      DoLook(t);
      if calls[t].Queued? {
        ghost var rest := LoadUnderLock(t);
        ExecAppend(s0, trace, rest);
        trace := trace + rest;
      }
      var outcome := calls[t].outcome;
      model := if outcome.Served? then Some(outcome.content) else None;
    }
  }
}
