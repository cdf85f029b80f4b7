/** GET /delays/live: the answer anchored on the newest trip update, and what pruning does to it. */
module LiveDelays {
  import opened Basics
  import opened RealtimeIngest

  datatype LiveDelay = LiveDelay(trip: string, route: Option<string>, stop: Option<string>,
                                 sequence: Option<int>, arrivalDelay: Option<int>,
                                 departureDelay: Option<int>, delay: Option<int>,
                                 arrivalTime: Option<int>, departureTime: Option<int>, recordedAt: int)

  datatype LiveDelaysOut = LiveDelaysOut(snapshotAt: Option<int>, count: nat, delays: seq<LiveDelay>)

  function Shown(t: TripUpdate, s: StopTimeUpdate): LiveDelay {
    LiveDelay(t.trip, t.route, s.stop, s.sequence, s.arrivalDelay, s.departureDelay,
              if s.departureDelay.Some? then s.departureDelay else s.arrivalDelay,
              s.arrivalTime, s.departureTime, t.recordedAt)
  }

  /** MAX(recorded_at), NULL over no rows. */
  function Latest(trips: seq<TripUpdate>): (r: Option<int>)
    ensures r.None? <==> trips == []
  {
    if trips == [] then None
    else
      var rest := Latest(trips[1..]);
      if rest.Some? && trips[0].recordedAt < rest.value then rest else Some(trips[0].recordedAt)
  }

  /** The rows of one trip update that pass the stop filter. */
  function ChildrenShown(t: TripUpdate, stops: seq<StopTimeUpdate>, stopFilter: Option<string>): seq<LiveDelay> {
    if stops == [] then []
    else
      (if stops[0].parent == t.id && (stopFilter.None? || stops[0].stop == stopFilter)
       then [Shown(t, stops[0])] else [])
      + ChildrenShown(t, stops[1..], stopFilter)
  }

  function TripShown(t: TripUpdate, stops: seq<StopTimeUpdate>, threshold: int,
                     routeFilter: Option<string>, stopFilter: Option<string>): seq<LiveDelay>
  {
    if threshold <= t.recordedAt && (routeFilter.None? || t.route == routeFilter)
    then ChildrenShown(t, stops, stopFilter)
    else []
  }

  /** The joined and filtered rows, before ORDER BY and LIMIT. */
  function Joined(trips: seq<TripUpdate>, stops: seq<StopTimeUpdate>, threshold: int,
                  routeFilter: Option<string>, stopFilter: Option<string>): seq<LiveDelay>
  {
    if trips == [] then []
    else TripShown(trips[0], stops, threshold, routeFilter, stopFilter)
         + Joined(trips[1..], stops, threshold, routeFilter, stopFilter)
  }

  function InsertDesc(x: LiveDelay, s: seq<LiveDelay>): seq<LiveDelay> {
    if s == [] || s[0].recordedAt <= x.recordedAt then [x] + s
    else [s[0]] + InsertDesc(x, s[1..])
  }

  /** ORDER BY recorded_at DESC; rows that tie keep table order. */
  function NewestFirst(s: seq<LiveDelay>): seq<LiveDelay> {
    if s == [] then [] else InsertDesc(s[0], NewestFirst(s[1..]))
  }

  function Take(s: seq<LiveDelay>, n: nat): seq<LiveDelay> {
    if n < |s| then s[..n] else s
  }

  /** The whole answer before ORDER BY and LIMIT: its anchor and its rows. */
  function Answer(db: Db, window: int, rf: Option<string>, sf: Option<string>): (Option<int>, seq<LiveDelay>) {
    var latest := Latest(db.tripUpdates);
    (latest, if latest.None? then []
             else Joined(db.tripUpdates, db.stopTimeUpdates, latest.value - window, rf, sf))
  }

  /** ORDER BY and LIMIT. */
  function Page(answer: (Option<int>, seq<LiveDelay>), limit: nat): LiveDelaysOut {
    var rows := Take(NewestFirst(answer.1), limit);
    LiveDelaysOut(answer.0, |rows|, rows)
  }

  function LiveDelaysFor(db: Db, routeFilter: Option<string>, stopFilter: Option<string>,
                         window: int, limit: nat): LiveDelaysOut
  {
    Page(Answer(db, window, routeFilter, stopFilter), limit)
  }

  // ---------------------------------------------------------------- pruning and the answer

  function ShownFrom(rows: seq<LiveDelay>, cutoff: int): seq<LiveDelay> {
    if rows == [] then []
    else (if cutoff <= rows[0].recordedAt then [rows[0]] else []) + ShownFrom(rows[1..], cutoff)
  }

  lemma ShownFromCons(x: LiveDelay, s: seq<LiveDelay>, cutoff: int)
    ensures ShownFrom([x] + s, cutoff) == (if cutoff <= x.recordedAt then [x] else []) + ShownFrom(s, cutoff)
  {
    assert ([x] + s)[1..] == s;
  }

  lemma {:induction false} ShownFromAppend(a: seq<LiveDelay>, b: seq<LiveDelay>, cutoff: int)
    ensures ShownFrom(a + b, cutoff) == ShownFrom(a, cutoff) + ShownFrom(b, cutoff)
  {
    if a == [] {
      assert a + b == b;
    } else {
      ShownFromAppend(a[1..], b, cutoff);
      assert (a + b)[0] == a[0] && (a + b)[1..] == a[1..] + b;
      Regroup(if cutoff <= a[0].recordedAt then [a[0]] else [], ShownFrom(a[1..], cutoff), ShownFrom(b, cutoff));
    }
  }

  lemma Regroup(a: seq<LiveDelay>, b: seq<LiveDelay>, c: seq<LiveDelay>)
    ensures a + (b + c) == (a + b) + c
  {
  }

  lemma {:induction false} ShownFromIsAllIff(rows: seq<LiveDelay>, cutoff: int)
    ensures |ShownFrom(rows, cutoff)| <= |rows|
    ensures ShownFrom(rows, cutoff) == rows <==> forall r :: r in rows ==> cutoff <= r.recordedAt
  {
    if rows != [] {
      ShownFromIsAllIff(rows[1..], cutoff);
      assert forall r :: r in rows <==> r == rows[0] || r in rows[1..];
      if cutoff <= rows[0].recordedAt {
        assert ShownFrom(rows, cutoff)[1..] == ShownFrom(rows[1..], cutoff);
      } else {
        assert |ShownFrom(rows, cutoff)| < |rows|;
      }
    }
  }

  lemma {:induction false} ChildrenShownFrom(t: TripUpdate, stops: seq<StopTimeUpdate>,
                                             sf: Option<string>, cutoff: int)
    ensures ShownFrom(ChildrenShown(t, stops, sf), cutoff)
         == if cutoff <= t.recordedAt then ChildrenShown(t, stops, sf) else []
  {
    if stops != [] {
      ChildrenShownFrom(t, stops[1..], sf, cutoff);
      ShownFromAppend(ChildrenShown(t, stops[..1], sf), ChildrenShown(t, stops[1..], sf), cutoff);
      assert ChildrenShown(t, stops, sf) == ChildrenShown(t, stops[..1], sf) + ChildrenShown(t, stops[1..], sf);
    }
  }

  lemma {:induction false} ChildrenShownAfterCascade(t: TripUpdate, stops: seq<StopTimeUpdate>,
                                                     sf: Option<string>, gone: set<nat>)
    requires t.id !in gone
    ensures ChildrenShown(t, WithoutChildrenOf(stops, gone), sf) == ChildrenShown(t, stops, sf)
  {
    if stops != [] {
      var rest := WithoutChildrenOf(stops[1..], gone);
      ChildrenShownAfterCascade(t, stops[1..], sf, gone);
      if stops[0].parent !in gone {
        assert ([stops[0]] + rest)[1..] == rest;
      } else {
        assert WithoutChildrenOf(stops, gone) == rest;
      }
    }
  }

  lemma TripShownAfterPrune(t: TripUpdate, stops: seq<StopTimeUpdate>, cutoff: int, gone: set<nat>,
                            threshold: int, rf: Option<string>, sf: Option<string>)
    requires t.id in gone <==> t.recordedAt < cutoff
    ensures ShownFrom(TripShown(t, stops, threshold, rf, sf), cutoff)
         == if cutoff <= t.recordedAt
            then TripShown(t, WithoutChildrenOf(stops, gone), threshold, rf, sf)
            else []
  {
    ChildrenShownFrom(t, stops, sf, cutoff);
    if cutoff <= t.recordedAt {
      ChildrenShownAfterCascade(t, stops, sf, gone);
    }
  }

  lemma JoinedCons(t: TripUpdate, trips: seq<TripUpdate>, stops: seq<StopTimeUpdate>, threshold: int,
                   rf: Option<string>, sf: Option<string>)
    ensures Joined([t] + trips, stops, threshold, rf, sf)
         == TripShown(t, stops, threshold, rf, sf) + Joined(trips, stops, threshold, rf, sf)
  {
    assert ([t] + trips)[1..] == trips;
  }

  lemma TripsFromCons(t: TripUpdate, trips: seq<TripUpdate>, cutoff: int)
    ensures TripsFrom([t] + trips, cutoff)
         == if cutoff <= t.recordedAt then [t] + TripsFrom(trips, cutoff) else TripsFrom(trips, cutoff)
  {
    assert ([t] + trips)[1..] == trips;
  }

  /** Pruning first and joining afterwards shows what joining first and dropping the old rows does. */
  lemma {:induction false} JoinAfterPrune(trips: seq<TripUpdate>, stops: seq<StopTimeUpdate>, cutoff: int,
                                          gone: set<nat>, threshold: int,
                                          rf: Option<string>, sf: Option<string>)
    requires forall i :: 0 <= i < |trips| ==> (trips[i].id in gone <==> trips[i].recordedAt < cutoff)
    ensures Joined(TripsFrom(trips, cutoff), WithoutChildrenOf(stops, gone), threshold, rf, sf)
         == ShownFrom(Joined(trips, stops, threshold, rf, sf), cutoff)
  {
    if trips != [] {
      var t, rest, kept := trips[0], trips[1..], WithoutChildrenOf(stops, gone);
      assert trips == [t] + rest;
      JoinAfterPrune(rest, stops, cutoff, gone, threshold, rf, sf);
      JoinedCons(t, rest, stops, threshold, rf, sf);
      TripsFromCons(t, rest, cutoff);
      TripShownAfterPrune(t, stops, cutoff, gone, threshold, rf, sf);
      ShownFromAppend(TripShown(t, stops, threshold, rf, sf), Joined(rest, stops, threshold, rf, sf), cutoff);
      if cutoff <= t.recordedAt {
        JoinedCons(t, TripsFrom(rest, cutoff), kept, threshold, rf, sf);
      }
    }
  }

  lemma ExpiredIds(db: Db, cutoff: int)
    requires Linked(db)
    ensures forall i :: 0 <= i < |db.tripUpdates| ==>
              (db.tripUpdates[i].id in Expired(db.tripUpdates, cutoff) <==> db.tripUpdates[i].recordedAt < cutoff)
  {
    forall i | 0 <= i < |db.tripUpdates| && db.tripUpdates[i].id in Expired(db.tripUpdates, cutoff)
      ensures db.tripUpdates[i].recordedAt < cutoff
    {
      var u :| u in db.tripUpdates && u.recordedAt < cutoff && u.id == db.tripUpdates[i].id;
      assert u == db.tripUpdates[i];
    }
  }

  lemma {:induction false} LatestAfterPrune(trips: seq<TripUpdate>, cutoff: int)
    ensures Latest(TripsFrom(trips, cutoff))
         == if Latest(trips).Some? && cutoff <= Latest(trips).value then Latest(trips) else None
  {
    if trips != [] {
      LatestAfterPrune(trips[1..], cutoff);
      var t, rest := trips[0], TripsFrom(trips[1..], cutoff);
      if cutoff <= t.recordedAt {
        assert TripsFrom(trips, cutoff) == [t] + rest && ([t] + rest)[1..] == rest;
      } else {
        assert TripsFrom(trips, cutoff) == rest;
      }
    }
  }

  lemma AnswerAfterPrune(db: Db, cutoff: int, window: int, rf: Option<string>, sf: Option<string>)
    requires Linked(db)
    ensures Answer(Pruned(db, cutoff), window, rf, sf)
         == var (latest, rows) := Answer(db, window, rf, sf);
            if latest.Some? && cutoff <= latest.value then (latest, ShownFrom(rows, cutoff)) else (None, [])
  {
    hide Joined, ShownFrom, Linked, WithoutChildrenOf, TripsFrom, Expired, Latest;
    LatestAfterPrune(db.tripUpdates, cutoff);
    var latest := Latest(db.tripUpdates);
    if latest.Some? && cutoff <= latest.value {
      ExpiredIds(db, cutoff);
      JoinAfterPrune(db.tripUpdates, db.stopTimeUpdates, cutoff, Expired(db.tripUpdates, cutoff),
                     latest.value - window, rf, sf);
    }
  }

  /** Before ORDER BY and LIMIT: pruning leaves the joined rows as they were exactly when the newest
      trip update survives and no joined row is older than the cutoff. */
  lemma PruneLeavesAnswerIff(db: Db, cutoff: int, window: int, rf: Option<string>, sf: Option<string>)
    requires Linked(db)
    ensures Answer(Pruned(db, cutoff), window, rf, sf) == Answer(db, window, rf, sf)
        <==> (db.tripUpdates == []
              || (cutoff <= Latest(db.tripUpdates).value
                  && forall r :: r in Answer(db, window, rf, sf).1 ==> cutoff <= r.recordedAt))
  {
    AnswerAfterPrune(db, cutoff, window, rf, sf);
    ShownFromIsAllIff(Answer(db, window, rf, sf).1, cutoff);
  }

  // ---------------------------------------------------------------- pruning and the page

  ghost predicate Descending(s: seq<LiveDelay>) {
    forall i, j :: 0 <= i < j < |s| ==> s[j].recordedAt <= s[i].recordedAt
  }

  lemma {:induction false} InsertDescKeepsRows(x: LiveDelay, s: seq<LiveDelay>)
    ensures multiset(InsertDesc(x, s)) == multiset(s) + multiset{x}
  {
    if s != [] && x.recordedAt < s[0].recordedAt {
      InsertDescKeepsRows(x, s[1..]);
      assert s == [s[0]] + s[1..];
    }
  }

  lemma {:induction false} InsertDescKeepsOrder(x: LiveDelay, s: seq<LiveDelay>)
    requires Descending(s)
    ensures Descending(InsertDesc(x, s))
    ensures InsertDesc(x, s) != [] && (InsertDesc(x, s)[0] == x || (s != [] && InsertDesc(x, s)[0] == s[0]))
  {
    if s != [] && x.recordedAt < s[0].recordedAt {
      InsertDescKeepsOrder(x, s[1..]);
      DescendingCons(s[0], InsertDesc(x, s[1..]));
    } else {
      DescendingCons(x, s);
    }
  }

  lemma DescendingCons(x: LiveDelay, s: seq<LiveDelay>)
    requires Descending(s) && (s != [] ==> s[0].recordedAt <= x.recordedAt)
    ensures Descending([x] + s)
  {
    assert forall j :: 0 < j < |s| ==> s[j].recordedAt <= s[0].recordedAt;
  }

  /** ORDER BY puts the same rows, and only those, in descending order. */
  lemma {:induction false} NewestFirstSorts(s: seq<LiveDelay>)
    ensures Descending(NewestFirst(s)) && multiset(NewestFirst(s)) == multiset(s)
  {
    hide InsertDesc, Descending;
    assert Descending([]) by { NothingDescends(); }
    if s != [] {
      NewestFirstSorts(s[1..]);
      InsertDescKeepsOrder(s[0], NewestFirst(s[1..]));
      InsertDescKeepsRows(s[0], NewestFirst(s[1..]));
      assert s == [s[0]] + s[1..];
    }
  }

  lemma NothingDescends()
    ensures Descending([])
  {
  }

  lemma {:induction false} InsertThenDrop(x: LiveDelay, s: seq<LiveDelay>, cutoff: int)
    requires Descending(s)
    ensures ShownFrom(InsertDesc(x, s), cutoff)
         == if cutoff <= x.recordedAt then InsertDesc(x, ShownFrom(s, cutoff)) else ShownFrom(s, cutoff)
  {
    if s == [] || s[0].recordedAt <= x.recordedAt {
      ShownFromCons(x, s, cutoff);
      FirstShownFrom(s, cutoff);
    } else {
      InsertThenDrop(x, s[1..], cutoff);
      ShownFromCons(s[0], InsertDesc(x, s[1..]), cutoff);
      if cutoff <= s[0].recordedAt {
        assert ([s[0]] + ShownFrom(s[1..], cutoff))[1..] == ShownFrom(s[1..], cutoff);
      } else {
        FirstShownFrom(s, cutoff);
      }
    }
  }

  lemma {:induction false} FirstShownFrom(s: seq<LiveDelay>, cutoff: int)
    requires Descending(s)
    ensures s == [] || s[0].recordedAt < cutoff ==> ShownFrom(s, cutoff) == []
    ensures ShownFrom(s, cutoff) != [] ==> ShownFrom(s, cutoff)[0] == s[0]
  {
    if s != [] {
      FirstShownFrom(s[1..], cutoff);
    }
  }

  /** Dropping old rows and ordering commute, ties included. */
  lemma {:induction false} OrderThenDrop(rows: seq<LiveDelay>, cutoff: int)
    ensures NewestFirst(ShownFrom(rows, cutoff)) == ShownFrom(NewestFirst(rows), cutoff)
  {
    if rows != [] {
      hide Descending, InsertDesc, ShownFrom;
      var x, rest := rows[0], rows[1..];
      OrderThenDrop(rest, cutoff);
      NewestFirstSorts(rest);
      InsertThenDrop(x, NewestFirst(rest), cutoff);
      ShownFromCons(x, rest, cutoff);
      assert rows == [x] + rest && ([x] + ShownFrom(rest, cutoff))[1..] == ShownFrom(rest, cutoff);
      assert [] + ShownFrom(rest, cutoff) == ShownFrom(rest, cutoff);
      assert NewestFirst([x] + ShownFrom(rest, cutoff)) == InsertDesc(x, NewestFirst(ShownFrom(rest, cutoff)));
    }
  }

  /** Of rows in descending order the ones that stay are a prefix. */
  lemma {:induction false} SurvivorsArePrefix(s: seq<LiveDelay>, cutoff: int)
    requires Descending(s)
    ensures ShownFrom(s, cutoff) <= s
    ensures forall i :: 0 <= i < |s| ==> (i < |ShownFrom(s, cutoff)| <==> cutoff <= s[i].recordedAt)
  {
    if s != [] {
      SurvivorsArePrefix(s[1..], cutoff);
      if s[0].recordedAt < cutoff {
        FirstShownFrom(s, cutoff);
      } else {
        assert s == [s[0]] + s[1..];
      }
    }
  }

  lemma TakeSurvivors(s: seq<LiveDelay>, cutoff: int, limit: nat)
    requires Descending(s)
    ensures Take(ShownFrom(s, cutoff), limit) == Take(s, limit)
        <==> forall r :: r in Take(s, limit) ==> cutoff <= r.recordedAt
  {
    SurvivorsArePrefix(s, cutoff);
    var kept, page := ShownFrom(s, cutoff), Take(s, limit);
    assert forall i :: 0 <= i < |page| ==> page[i] == s[i] && page[i] in page;
    if |kept| < |page| {
      assert page[|kept|].recordedAt < cutoff;
    }
  }

  /** The response after a prune: the surviving rows of the old answer, ordered and limited. */
  lemma PageAfterPrune(db: Db, cutoff: int, window: int, limit: nat, rf: Option<string>, sf: Option<string>)
    requires Linked(db)
    ensures LiveDelaysFor(Pruned(db, cutoff), rf, sf, window, limit)
         == var (latest, rows) := Answer(db, window, rf, sf);
            if latest.Some? && cutoff <= latest.value then
              var page := Take(ShownFrom(NewestFirst(rows), cutoff), limit);
              LiveDelaysOut(latest, |page|, page)
            else LiveDelaysOut(None, 0, [])
  {
    hide Answer, Pruned, ShownFrom, Linked;
    AnswerAfterPrune(db, cutoff, window, rf, sf);
    OrderThenDrop(Answer(db, window, rf, sf).1, cutoff);
  }

  /** Pruning leaves the response of the endpoint as it was exactly when the newest trip update
      survives and no row on the page is older than the cutoff. */
  lemma PruneLeavesPageIff(db: Db, cutoff: int, window: int, limit: nat, rf: Option<string>, sf: Option<string>)
    requires Linked(db)
    ensures LiveDelaysFor(Pruned(db, cutoff), rf, sf, window, limit) == LiveDelaysFor(db, rf, sf, window, limit)
        <==> (db.tripUpdates == []
              || (cutoff <= Latest(db.tripUpdates).value
                  && forall r :: r in LiveDelaysFor(db, rf, sf, window, limit).delays ==> cutoff <= r.recordedAt))
  {
    hide Joined, Pruned, ShownFrom, Linked, NewestFirst, Take;
    PageAfterPrune(db, cutoff, window, limit, rf, sf);
    var (latest, rows) := Answer(db, window, rf, sf);
    NewestFirstSorts(rows);
    TakeSurvivors(NewestFirst(rows), cutoff, limit);
    if db.tripUpdates == [] {
      assert LiveDelaysFor(db, rf, sf, window, limit) == LiveDelaysOut(None, 0, []) by {
        NothingShown(limit);
      }
    }
  }

  lemma NothingShown(limit: nat)
    ensures Take(NewestFirst([]), limit) == []
  {
  }

  lemma {:induction false} JoinedAreRecent(trips: seq<TripUpdate>, stops: seq<StopTimeUpdate>, threshold: int,
                                           rf: Option<string>, sf: Option<string>)
    ensures forall r :: r in Joined(trips, stops, threshold, rf, sf) ==> threshold <= r.recordedAt
  {
    if trips != [] {
      JoinedAreRecent(trips[1..], stops, threshold, rf, sf);
      ChildrenCarryTime(trips[0], stops, sf);
    }
  }

  lemma {:induction false} ChildrenCarryTime(t: TripUpdate, stops: seq<StopTimeUpdate>, sf: Option<string>)
    ensures forall r :: r in ChildrenShown(t, stops, sf) ==> r.recordedAt == t.recordedAt
  {
    if stops != [] {
      ChildrenCarryTime(t, stops[1..], sf);
    }
  }

  /** In particular a cutoff at or before latest - window changes no live answer, whatever its
      filters and limit. */
  lemma PruneBeforeWindowIsInvisible(db: Db, cutoff: int, window: int, limit: nat,
                                     rf: Option<string>, sf: Option<string>)
    requires Linked(db) && 0 <= window
    requires db.tripUpdates == [] || cutoff <= Latest(db.tripUpdates).value - window
    ensures LiveDelaysFor(Pruned(db, cutoff), rf, sf, window, limit) == LiveDelaysFor(db, rf, sf, window, limit)
  {
    hide Pruned, Linked, Joined;
    if db.tripUpdates != [] {
      JoinedAreRecent(db.tripUpdates, db.stopTimeUpdates, Latest(db.tripUpdates).value - window, rf, sf);
    }
    PruneLeavesAnswerIff(db, cutoff, window, rf, sf);
  }
}
