/** The delay_observations table and its natural-key upsert. */
module Observations {
  import opened Clock
  import opened Keyed

  /** uq_delay_obs_natural. */
  datatype Key = Key(trip: string, stop: string, day: int)

  datatype Observation = Observation(id: nat, route: string, trip: string, stop: string,
                                     observedAt: int, day: int, hour: int, dow: int, delay: int)
  {
    function NaturalKey(): Key { Key(trip, stop, day) }
  }

  /** One row of the VALUES list of an INSERT. */
  datatype Proposal = Proposal(route: string, trip: string, stop: string,
                               observedAt: int, day: int, hour: int, dow: int, delay: int)
  {
    function NaturalKey(): Key { Key(trip, stop, day) }
  }

  type Table = seq<Observation>

  function ProposalKey(p: Proposal): Key { p.NaturalKey() }

  function RowKey(o: Observation): Key { o.NaturalKey() }

  ghost predicate UniqueKeys(table: Table) {
    Distinct(table, RowKey)
  }

  /** The SET list: delay, observed_at, hour and day of week follow EXCLUDED; the rest stays. */
  function Overwrite(o: Observation, p: Proposal): Observation {
    o.(delay := p.delay, observedAt := p.observedAt, hour := p.hour, dow := p.dow)
  }

  function Fresh(p: Proposal, id: nat): Observation {
    Observation(id, p.route, p.trip, p.stop, p.observedAt, p.day, p.hour, p.dow, p.delay)
  }

  function UpsertRow(table: Table, p: Proposal, id: nat): Table {
    var i := FindBy(table, RowKey, p.NaturalKey());
    if i < |table| then table[i := Overwrite(table[i], p)] else table + [Fresh(p, id)]
  }

  /** Rows are taken in order; each draws the next id whether or not it ends up inserting. */
  function UpsertRows(table: Table, rows: seq<Proposal>, id: nat): Table
    decreases |rows|
  {
    if rows == [] then table
    else
      var n := |rows| - 1;
      UpsertRow(UpsertRows(table, rows[..n], id), rows[n], id + n)
  }

  /** The same key twice in one INSERT ... ON CONFLICT DO UPDATE: PostgreSQL refuses the statement. */
  predicate TouchesTwice(rows: seq<Proposal>) {
    Repeats(rows, ProposalKey)
  }

  lemma NothingUpserted(table: Table, id: nat)
    ensures UpsertRows(table, [], id) == table && !TouchesTwice([])
  {
  }

  lemma {:induction false} UpsertRowsAppend(table: Table, a: seq<Proposal>, b: seq<Proposal>, id: nat)
    ensures UpsertRows(table, a + b, id) == UpsertRows(UpsertRows(table, a, id), b, id + |a|)
    decreases |b|
  {
    hide UpsertRow;
    if b == [] {
      assert a + b == a;
    } else {
      var n := |b| - 1;
      assert (a + b)[..|a| + n] == a + b[..n];
      UpsertRowsAppend(table, a, b[..n], id);
    }
  }

  // ---------------------------------------------------------------- what an upsert cannot change

  predicate SameIdentity(o: Observation, p: Observation) {
    o.id == p.id && o.route == p.route && o.trip == p.trip && o.stop == p.stop && o.day == p.day
  }

  ghost predicate Extends(old_: Table, new_: Table) {
    |old_| <= |new_| && forall i :: 0 <= i < |old_| ==> SameIdentity(old_[i], new_[i])
  }

  /** Rows keep their place, id, route and natural key under any further upsert. */
  lemma {:induction false} UpsertRowsExtend(table: Table, rows: seq<Proposal>, id: nat)
    ensures Extends(table, UpsertRows(table, rows, id))
    decreases |rows|
  {
    if rows != [] {
      UpsertRowsExtend(table, rows[..|rows| - 1], id);
    }
  }

  /** Ids grow along the table and stay below the next one to be drawn. */
  ghost predicate IdsBelow(table: Table, next: nat) {
    && (forall i, j :: 0 <= i < j < |table| ==> table[i].id < table[j].id)
    && (forall i :: 0 <= i < |table| ==> table[i].id < next)
  }

  ghost predicate WellTimed(table: Table) {
    forall i :: 0 <= i < |table| ==>
      table[i].hour == HourOf(table[i].observedAt) && table[i].dow == WeekdayOf(table[i].observedAt)
  }

  ghost predicate ProposalsWellTimed(rows: seq<Proposal>) {
    forall i :: 0 <= i < |rows| ==>
      rows[i].hour == HourOf(rows[i].observedAt) && rows[i].dow == WeekdayOf(rows[i].observedAt)
  }

  ghost predicate HasKey(table: Table, k: Key) {
    exists i :: 0 <= i < |table| && table[i].NaturalKey() == k
  }

  /** An upsert touches the row with its key and no other, or appends a fresh one. */
  lemma UpsertRowMoves(table: Table, p: Proposal, id: nat)
    requires UniqueKeys(table)
    ensures var t' := UpsertRow(table, p, id);
            && UniqueKeys(t') && |table| <= |t'| <= |table| + 1
            && (forall j :: 0 <= j < |table| ==>
                  t'[j] == if table[j].NaturalKey() == p.NaturalKey() then Overwrite(table[j], p) else table[j])
            && (|t'| == |table| + 1 <==> !HasKey(table, p.NaturalKey()))
            && (|t'| == |table| + 1 ==> t'[|table|] == Fresh(p, id))
  {
    var i := FindBy(table, RowKey, p.NaturalKey());
    if i < |table| {
      assert table[i].NaturalKey() == p.NaturalKey();
      assert forall j :: 0 <= j < |table| && j != i ==> table[j].NaturalKey() != p.NaturalKey();
    }
  }

  lemma UpsertRowKeeps(table: Table, p: Proposal, id: nat)
    requires UniqueKeys(table) && IdsBelow(table, id) && WellTimed(table)
    requires p.hour == HourOf(p.observedAt) && p.dow == WeekdayOf(p.observedAt)
    ensures UniqueKeys(UpsertRow(table, p, id))
    ensures IdsBelow(UpsertRow(table, p, id), id + 1)
    ensures WellTimed(UpsertRow(table, p, id))
  {
    hide UpsertRow, UniqueKeys, HasKey, HourOf, WeekdayOf;
    UpsertRowMoves(table, p, id);
  }

  lemma {:induction false} UpsertRowsKeep(table: Table, rows: seq<Proposal>, id: nat)
    requires UniqueKeys(table) && IdsBelow(table, id) && WellTimed(table) && ProposalsWellTimed(rows)
    ensures UniqueKeys(UpsertRows(table, rows, id))
    ensures IdsBelow(UpsertRows(table, rows, id), id + |rows|)
    ensures WellTimed(UpsertRows(table, rows, id))
    decreases |rows|
  {
    hide UpsertRow, UniqueKeys, IdsBelow, WellTimed, HourOf, WeekdayOf;
    if rows != [] {
      var n := |rows| - 1;
      UpsertRowsKeep(table, rows[..n], id);
      UpsertRowKeeps(UpsertRows(table, rows[..n], id), rows[n], id + n);
    }
  }

  // ---------------------------------------------------------------- the table against the log

  ghost predicate FirstWith(log: seq<Proposal>, k: Key, i: int) {
    0 <= i < |log| && log[i].NaturalKey() == k &&
    forall j :: 0 <= j < i ==> log[j].NaturalKey() != k
  }

  ghost predicate LastWith(log: seq<Proposal>, k: Key, i: int) {
    0 <= i < |log| && log[i].NaturalKey() == k &&
    forall j :: i < j < |log| ==> log[j].NaturalKey() != k
  }

  /** The row took its place and route from the first proposal with its key and everything that
      can change from the last one. */
  ghost predicate RowFromLog(o: Observation, log: seq<Proposal>, last: int) {
    && FirstWith(log, o.NaturalKey(), o.id) && o.route == log[o.id].route
    && LastWith(log, o.NaturalKey(), last)
    && o.delay == log[last].delay && o.observedAt == log[last].observedAt
    && o.hour == log[last].hour && o.dow == log[last].dow
  }

  ghost predicate FromLog(o: Observation, log: seq<Proposal>) {
    exists last :: RowFromLog(o, log, last)
  }

  ghost predicate Logged(log: seq<Proposal>, k: Key) {
    exists j :: 0 <= j < |log| && log[j].NaturalKey() == k
  }

  /** The table is exactly the log with one row per natural key, first place, last values. */
  ghost predicate Represents(table: Table, log: seq<Proposal>) {
    && UniqueKeys(table)
    && (forall i :: 0 <= i < |table| ==> FromLog(table[i], log))
    && (forall k :: Logged(log, k) ==> HasKey(table, k))
  }

  lemma {:induction false} UpsertRowsRepresent(log: seq<Proposal>)
    ensures Represents(UpsertRows([], log, 0), log)
    decreases |log|
  {
    if log != [] {
      var n := |log| - 1;
      UpsertRowsRepresent(log[..n]);
      UpsertRowRepresents(UpsertRows([], log[..n], 0), log[..n], log[n]);
      assert log[..n] + [log[n]] == log;
    }
  }

  lemma LoggedStep(log: seq<Proposal>, p: Proposal, k: Key)
    ensures Logged(log + [p], k) <==> Logged(log, k) || p.NaturalKey() == k
  {
    if Logged(log, k) {
      var j :| 0 <= j < |log| && log[j].NaturalKey() == k;
      assert (log + [p])[j].NaturalKey() == k;
    }
    if p.NaturalKey() == k {
      assert (log + [p])[|log|].NaturalKey() == k;
    }
  }

  lemma RowFromLogStep(o: Observation, log: seq<Proposal>, p: Proposal)
    requires FromLog(o, log)
    ensures FromLog(if o.NaturalKey() == p.NaturalKey() then Overwrite(o, p) else o, log + [p])
  {
    var last :| RowFromLog(o, log, last);
    if o.NaturalKey() == p.NaturalKey() {
      assert RowFromLog(Overwrite(o, p), log + [p], |log|);
    } else {
      assert RowFromLog(o, log + [p], last);
    }
  }

  lemma FreshRowFromLog(log: seq<Proposal>, p: Proposal)
    requires !Logged(log, p.NaturalKey())
    ensures FromLog(Fresh(p, |log|), log + [p])
  {
    assert forall j :: 0 <= j < |log| ==> log[j].NaturalKey() != p.NaturalKey();
    assert RowFromLog(Fresh(p, |log|), log + [p], |log|);
  }

  lemma HasKeyStep(table: Table, p: Proposal, id: nat, k: Key)
    requires UniqueKeys(table)
    ensures HasKey(table, k) || p.NaturalKey() == k ==> HasKey(UpsertRow(table, p, id), k)
  {
    UpsertRowMoves(table, p, id);
    hide UpsertRow;
    var t' := UpsertRow(table, p, id);
    if HasKey(table, k) {
      var m :| 0 <= m < |table| && table[m].NaturalKey() == k;
      assert t'[m].NaturalKey() == k;
    } else if p.NaturalKey() == k {
      assert t'[|table|].NaturalKey() == k;
    }
  }

  lemma UpsertRowRepresents(table: Table, log: seq<Proposal>, p: Proposal)
    requires Represents(table, log)
    ensures Represents(UpsertRow(table, p, |log|), log + [p])
  {
    hide UpsertRow, FromLog, HasKey, Logged, UniqueKeys;
    var table', log' := UpsertRow(table, p, |log|), log + [p];
    UpsertRowMoves(table, p, |log|);
    forall j | 0 <= j < |table'|
      ensures FromLog(table'[j], log')
    {
      if j < |table| {
        RowFromLogStep(table[j], log, p);
      } else {
        FreshRowFromLog(log, p);
      }
    }
    forall k | Logged(log', k)
      ensures HasKey(table', k)
    {
      LoggedStep(log, p, k);
      HasKeyStep(table, p, |log|, k);
    }
  }
}
