/** Tables with a primary key, as row sequences: selection by key and whole-row upsert. */
module Keyed {
  import opened Basics

  ghost predicate Distinct<V, K>(table: seq<V>, key: V -> K) {
    forall i, j :: 0 <= i < j < |table| ==> key(table[i]) != key(table[j])
  }

  predicate Repeats<V, K(==)>(rows: seq<V>, key: V -> K) {
    exists i, j :: 0 <= i < j < |rows| && key(rows[i]) == key(rows[j])
  }

  /** Index of the first row with key k, or |table|. */
  function FindBy<V, K(==)>(table: seq<V>, key: V -> K, k: K): (i: nat)
    ensures i <= |table|
    ensures i < |table| ==> key(table[i]) == k
    ensures forall j :: 0 <= j < i ==> key(table[j]) != k
  {
    if table == [] then 0
    else if key(table[0]) == k then 0
    else 1 + FindBy(table[1..], key, k)
  }

  /** The rows a join condition key(row) = k selects. */
  function Select<V, K(==)>(table: seq<V>, key: V -> K, k: K): seq<V> {
    if table == [] then []
    else (if key(table[0]) == k then [table[0]] else []) + Select(table[1..], key, k)
  }

  lemma {:induction false} SelectNone<V, K>(table: seq<V>, key: V -> K, k: K)
    requires forall i :: 0 <= i < |table| ==> key(table[i]) != k
    ensures Select(table, key, k) == []
  {
    if table != [] {
      SelectNone(table[1..], key, k);
    }
  }

  /** On a primary key the condition selects at most one row. */
  lemma {:induction false} SelectIsFind<V, K>(table: seq<V>, key: V -> K, k: K)
    requires Distinct(table, key)
    ensures var i := FindBy(table, key, k);
            Select(table, key, k) == if i < |table| then [table[i]] else []
  {
    if table != [] {
      if key(table[0]) == k {
        SelectNone(table[1..], key, k);
      } else {
        SelectIsFind(table[1..], key, k);
      }
    }
  }

  /** INSERT ... ON CONFLICT (key) DO UPDATE of every other column. */
  function Put<V, K(==)>(table: seq<V>, key: V -> K, row: V): (r: seq<V>)
    ensures |table| <= |r|
  {
    var i := FindBy(table, key, key(row));
    if i < |table| then table[i := row] else table + [row]
  }

  function PutAll<V, K(==)>(table: seq<V>, key: V -> K, rows: seq<V>): seq<V>
    decreases |rows|
  {
    if rows == [] then table
    else Put(PutAll(table, key, rows[..|rows| - 1]), key, rows[|rows| - 1])
  }

  lemma {:induction false} PutAllDistinct<V, K>(table: seq<V>, key: V -> K, rows: seq<V>)
    requires Distinct(table, key)
    ensures Distinct(PutAll(table, key, rows), key)
    decreases |rows|
  {
    if rows != [] {
      PutAllDistinct(table, key, rows[..|rows| - 1]);
    }
  }

  /** The row a table holds under a key. */
  function Lookup<V, K(==)>(table: seq<V>, key: V -> K, k: K): Option<V> {
    var i := FindBy(table, key, k);
    if i < |table| then Some(table[i]) else None
  }

  lemma LookupUnique<V, K>(table: seq<V>, key: V -> K, i: nat)
    requires Distinct(table, key) && i < |table|
    ensures Lookup(table, key, key(table[i])) == Some(table[i])
  {
  }

  lemma PutLookup<V, K>(table: seq<V>, key: V -> K, row: V, k: K)
    requires Distinct(table, key)
    ensures Distinct(Put(table, key, row), key)
    ensures Lookup(Put(table, key, row), key, k) == if k == key(row) then Some(row) else Lookup(table, key, k)
  {
    var i, j, table' := FindBy(table, key, key(row)), FindBy(table, key, k), Put(table, key, row);
    if k == key(row) {
      assert table'[i] == row;
      LookupUnique(table', key, i);
    } else if j < |table| {
      assert table'[j] == table[j];
      LookupUnique(table', key, j);
    }
  }

  /** Keys that are not put keep their row, or stay absent. */
  lemma {:induction false} PutAllElsewhere<V, K>(table: seq<V>, key: V -> K, rows: seq<V>, k: K)
    requires Distinct(table, key)
    requires forall m :: 0 <= m < |rows| ==> key(rows[m]) != k
    ensures Distinct(PutAll(table, key, rows), key)
    ensures Lookup(PutAll(table, key, rows), key, k) == Lookup(table, key, k)
    decreases |rows|
  {
    if rows != [] {
      var n := |rows| - 1;
      PutAllElsewhere(table, key, rows[..n], k);
      PutLookup(PutAll(table, key, rows[..n]), key, rows[n], k);
    }
  }

  /** The row put last for its key is what the table then holds under it. */
  lemma {:induction false} PutAllLast<V, K>(table: seq<V>, key: V -> K, rows: seq<V>, j: nat)
    requires Distinct(table, key) && j < |rows|
    requires forall m :: j < m < |rows| ==> key(rows[m]) != key(rows[j])
    ensures Distinct(PutAll(table, key, rows), key)
    ensures Lookup(PutAll(table, key, rows), key, key(rows[j])) == Some(rows[j])
    decreases |rows|
  {
    var n := |rows| - 1;
    PutAllDistinct(table, key, rows[..n]);
    PutLookup(PutAll(table, key, rows[..n]), key, rows[n], key(rows[j]));
    if j < n {
      PutAllLast(table, key, rows[..n], j);
    }
  }

  /** INSERT ... ON CONFLICT (key) DO NOTHING. */
  function AddAbsent<V, K(==)>(table: seq<V>, key: V -> K, rows: seq<V>): (r: seq<V>)
    ensures table <= r
    decreases |rows|
  {
    if rows == [] then table
    else
      var n := |rows| - 1;
      var before := AddAbsent(table, key, rows[..n]);
      if FindBy(before, key, key(rows[n])) < |before| then before else before + [rows[n]]
  }

  lemma {:induction false} AddAbsentDistinct<V, K>(table: seq<V>, key: V -> K, rows: seq<V>)
    requires Distinct(table, key)
    ensures Distinct(AddAbsent(table, key, rows), key)
    decreases |rows|
  {
    if rows != [] {
      AddAbsentDistinct(table, key, rows[..|rows| - 1]);
    }
  }
}
