/** The rows behind GET /delays/live, stated from the two tables and the query alone. */
module LiveAnswer {
  import opened Basics
  import opened Counting
  import opened RealtimeIngest
  import opened LiveDelays

  /** Row d shows stop update s of trip update t. */
  ghost predicate Shows(t: TripUpdate, s: StopTimeUpdate, d: LiveDelay) {
    && d.trip == t.trip && d.route == t.route && d.recordedAt == t.recordedAt
    && d.stop == s.stop && d.sequence == s.sequence
    && d.arrivalDelay == s.arrivalDelay && d.departureDelay == s.departureDelay
    && d.arrivalTime == s.arrivalTime && d.departureTime == s.departureTime
    && (if s.departureDelay.Some? then d.delay == s.departureDelay else d.delay == s.arrivalDelay)
  }

  /** The pair is in the answer: parent and child, recent enough, and passing the filters given. */
  ghost predicate Answers(t: TripUpdate, s: StopTimeUpdate, threshold: int, rf: Option<string>, sf: Option<string>) {
    && s.parent == t.id && threshold <= t.recordedAt
    && (rf.Some? ==> t.route == rf) && (sf.Some? ==> s.stop == sf)
  }

  /** The children of t that make row d. */
  ghost function Children(t: TripUpdate, stops: seq<StopTimeUpdate>, threshold: int, rf: Option<string>,
                          sf: Option<string>, d: LiveDelay): set<int>
  {
    set j | 0 <= j < |stops| && Answers(t, stops[j], threshold, rf, sf) && Shows(t, stops[j], d)
  }

  /** The pairs of a trip update and a stop update that make row d. */
  ghost function Pairs(trips: seq<TripUpdate>, stops: seq<StopTimeUpdate>, threshold: int, rf: Option<string>,
                       sf: Option<string>, d: LiveDelay): set<(int, int)>
  {
    set i, j | 0 <= i < |trips| && 0 <= j < |stops| && Answers(trips[i], stops[j], threshold, rf, sf)
               && Shows(trips[i], stops[j], d) :: (i, j)
  }

  lemma ShownShows(t: TripUpdate, s: StopTimeUpdate, d: LiveDelay)
    ensures Shown(t, s) == d <==> Shows(t, s, d)
  {
  }

  lemma {:induction false} ChildrenAppend(t: TripUpdate, a: seq<StopTimeUpdate>, b: seq<StopTimeUpdate>,
                                          sf: Option<string>)
    ensures ChildrenShown(t, a + b, sf) == ChildrenShown(t, a, sf) + ChildrenShown(t, b, sf)
  {
    if a == [] {
      assert a + b == b;
    } else {
      hide Shown;
      ChildrenAppend(t, a[1..], b, sf);
      assert (a + b)[0] == a[0] && (a + b)[1..] == a[1..] + b;
      Regroup(if a[0].parent == t.id && (sf.None? || a[0].stop == sf) then [Shown(t, a[0])] else [],
              ChildrenShown(t, a[1..], sf), ChildrenShown(t, b, sf));
    }
  }

  lemma OneChild(t: TripUpdate, s: StopTimeUpdate, sf: Option<string>)
    ensures ChildrenShown(t, [s], sf) == if s.parent == t.id && (sf.None? || s.stop == sf) then [Shown(t, s)] else []
  {
    hide Shown;
    assert [s][1..] == [];
  }

  lemma ChildrenStep(t: TripUpdate, stops: seq<StopTimeUpdate>, threshold: int, rf: Option<string>,
                     sf: Option<string>, d: LiveDelay)
    requires stops != []
    ensures var n := |stops| - 1;
            |Children(t, stops, threshold, rf, sf, d)| == |Children(t, stops[..n], threshold, rf, sf, d)|
              + (if Answers(t, stops[n], threshold, rf, sf) && Shows(t, stops[n], d) then 1 else 0)
  {
    hide Answers, Shows;
    var n := |stops| - 1;
    var before, all := Children(t, stops[..n], threshold, rf, sf, d), Children(t, stops, threshold, rf, sf, d);
    assert all == if n in all then before + {n} else before;
  }

  lemma {:induction false} ChildrenCounted(t: TripUpdate, stops: seq<StopTimeUpdate>, threshold: int,
                                           rf: Option<string>, sf: Option<string>, d: LiveDelay)
    requires threshold <= t.recordedAt && (rf.Some? ==> t.route == rf)
    ensures multiset(ChildrenShown(t, stops, sf))[d] == |Children(t, stops, threshold, rf, sf, d)|
    decreases |stops|
  {
    hide Shown, Shows, Children, ChildrenShown;
    if stops == [] {
      NoChildren(t, threshold, rf, sf, d);
    } else {
      var n := |stops| - 1;
      var kept := ChildrenShown(t, stops[..n], sf);
      ChildrenCounted(t, stops[..n], threshold, rf, sf, d);
      ChildrenAppend(t, stops[..n], [stops[n]], sf);
      assert stops == stops[..n] + [stops[n]];
      OneChild(t, stops[n], sf);
      ShownShows(t, stops[n], d);
      ChildrenStep(t, stops, threshold, rf, sf, d);
      assert kept + [] == kept;
    }
  }

  lemma NoChildren(t: TripUpdate, threshold: int, rf: Option<string>, sf: Option<string>, d: LiveDelay)
    ensures ChildrenShown(t, [], sf) == [] && Children(t, [], threshold, rf, sf, d) == {}
  {
  }

  lemma TripCounted(t: TripUpdate, stops: seq<StopTimeUpdate>, threshold: int, rf: Option<string>,
                    sf: Option<string>, d: LiveDelay)
    ensures multiset(TripShown(t, stops, threshold, rf, sf))[d] == |Children(t, stops, threshold, rf, sf, d)|
  {
    if threshold <= t.recordedAt && (rf.Some? ==> t.route == rf) {
      ChildrenCounted(t, stops, threshold, rf, sf, d);
    } else {
      assert Children(t, stops, threshold, rf, sf, d) == {};
    }
  }

  lemma {:induction false} JoinedAppend(a: seq<TripUpdate>, b: seq<TripUpdate>, stops: seq<StopTimeUpdate>,
                                        threshold: int, rf: Option<string>, sf: Option<string>)
    ensures Joined(a + b, stops, threshold, rf, sf)
         == Joined(a, stops, threshold, rf, sf) + Joined(b, stops, threshold, rf, sf)
  {
    hide TripShown, Joined;
    if a == [] {
      assert a + b == b;
      NothingJoined(stops, threshold, rf, sf);
      assert [] + Joined(b, stops, threshold, rf, sf) == Joined(b, stops, threshold, rf, sf);
    } else {
      var t, rest := a[0], a[1..];
      JoinedAppend(rest, b, stops, threshold, rf, sf);
      assert a + b == [t] + (rest + b) && a == [t] + rest;
      JoinedCons(t, rest + b, stops, threshold, rf, sf);
      JoinedCons(t, rest, stops, threshold, rf, sf);
      Regroup(TripShown(t, stops, threshold, rf, sf), Joined(rest, stops, threshold, rf, sf),
              Joined(b, stops, threshold, rf, sf));
    }
  }

  lemma NothingJoined(stops: seq<StopTimeUpdate>, threshold: int, rf: Option<string>, sf: Option<string>)
    ensures Joined([], stops, threshold, rf, sf) == []
  {
  }

  lemma OneTripJoined(t: TripUpdate, stops: seq<StopTimeUpdate>, threshold: int, rf: Option<string>, sf: Option<string>)
    ensures Joined([t], stops, threshold, rf, sf) == TripShown(t, stops, threshold, rf, sf)
  {
    hide TripShown;
    assert [t][1..] == [];
  }

  lemma PairsStep(trips: seq<TripUpdate>, stops: seq<StopTimeUpdate>, threshold: int, rf: Option<string>,
                  sf: Option<string>, d: LiveDelay)
    requires trips != []
    ensures var n := |trips| - 1;
            |Pairs(trips, stops, threshold, rf, sf, d)|
            == |Pairs(trips[..n], stops, threshold, rf, sf, d)| + |Children(trips[n], stops, threshold, rf, sf, d)|
  {
    hide Answers, Shows;
    var n := |trips| - 1;
    var before, mine := Pairs(trips[..n], stops, threshold, rf, sf, d), Children(trips[n], stops, threshold, rf, sf, d);
    var paired := PairedWith(mine, n);
    PairedCount(mine, n, |stops|);
    assert before !! paired;
    assert Pairs(trips, stops, threshold, rf, sf, d) == before + paired;
  }

  /** The join shows each pair of a recent trip update and a stop update of it that pass the filters once,
      and nothing else. */
  lemma {:induction false} JoinedIsTheJoin(trips: seq<TripUpdate>, stops: seq<StopTimeUpdate>, threshold: int,
                                           rf: Option<string>, sf: Option<string>, d: LiveDelay)
    ensures multiset(Joined(trips, stops, threshold, rf, sf))[d] == |Pairs(trips, stops, threshold, rf, sf, d)|
    decreases |trips|
  {
    hide TripShown, Children;
    if trips == [] {
      assert Pairs(trips, stops, threshold, rf, sf, d) == {};
    } else {
      var n := |trips| - 1;
      JoinedIsTheJoin(trips[..n], stops, threshold, rf, sf, d);
      JoinedAppend(trips[..n], [trips[n]], stops, threshold, rf, sf);
      OneTripJoined(trips[n], stops, threshold, rf, sf);
      TripCounted(trips[n], stops, threshold, rf, sf, d);
      PairsStep(trips, stops, threshold, rf, sf, d);
      assert trips == trips[..n] + [trips[n]];
    }
  }

  ghost predicate IsLatest(trips: seq<TripUpdate>, latest: int) {
    (exists i :: 0 <= i < |trips| && trips[i].recordedAt == latest) &&
    forall i :: 0 <= i < |trips| ==> trips[i].recordedAt <= latest
  }

  lemma {:induction false} LatestIsLatest(trips: seq<TripUpdate>)
    requires trips != []
    ensures Latest(trips).Some? && IsLatest(trips, Latest(trips).value)
  {
    if |trips| > 1 {
      LatestIsLatest(trips[1..]);
      var i :| 0 <= i < |trips[1..]| && trips[1..][i].recordedAt == Latest(trips[1..]).value;
      assert trips[i + 1].recordedAt == Latest(trips[1..]).value;
      assert forall k :: 0 < k < |trips| ==> trips[k] == trips[1..][k - 1];
    } else {
      assert trips[1..] == [];
      assert trips[0].recordedAt == Latest(trips).value;
    }
  }

  /** rows lists the pairs of the answer anchored at latest, newest first. */
  ghost predicate AnswerRows(db: Db, latest: int, window: int, rf: Option<string>, sf: Option<string>,
                             rows: seq<LiveDelay>)
  {
    && (forall d :: multiset(rows)[d] == |Pairs(db.tripUpdates, db.stopTimeUpdates, latest - window, rf, sf, d)|)
    && Descending(rows)
  }

  /** The response: nothing without trip updates; else the first `limit` of the rows of the window before
      the newest trip update, newest first. */
  lemma PageFollowsTables(db: Db, window: int, limit: nat, rf: Option<string>, sf: Option<string>)
    ensures var out := LiveDelaysFor(db, rf, sf, window, limit);
            if db.tripUpdates == [] then out == LiveDelaysOut(None, 0, [])
            else
              && out.snapshotAt.Some? && IsLatest(db.tripUpdates, out.snapshotAt.value) && out.count == |out.delays|
              && exists rows :: AnswerRows(db, out.snapshotAt.value, window, rf, sf, rows)
                                && out.delays == if limit < |rows| then rows[..limit] else rows
  {
    hide Pairs, Joined, NewestFirst, IsLatest, Latest, Descending;
    if db.tripUpdates == [] {
      EmptyPage(db, window, limit, rf, sf);
    } else {
      LatestIsLatest(db.tripUpdates);
      var latest := Latest(db.tripUpdates).value;
      var joined := Joined(db.tripUpdates, db.stopTimeUpdates, latest - window, rf, sf);
      NewestFirstSorts(joined);
      forall d
        ensures multiset(joined)[d] == |Pairs(db.tripUpdates, db.stopTimeUpdates, latest - window, rf, sf, d)|
      {
        JoinedIsTheJoin(db.tripUpdates, db.stopTimeUpdates, latest - window, rf, sf, d);
      }
      assert AnswerRows(db, latest, window, rf, sf, NewestFirst(joined));
    }
  }

  lemma EmptyPage(db: Db, window: int, limit: nat, rf: Option<string>, sf: Option<string>)
    requires db.tripUpdates == []
    ensures LiveDelaysFor(db, rf, sf, window, limit) == LiveDelaysOut(None, 0, [])
  {
    NothingShown(limit);
  }
}
