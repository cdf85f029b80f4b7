/** _upsert: rows written in consecutive statements of at most batch rows each. */
module ChunkedUpsert {
  import opened Basics

  datatype Failure = MissingFile | BadCell | RepeatedKey | DanglingReference

  type Row<K, V> = (K, V)

  /** The table overridden by all rows, in order: the last row of a key wins. */
  function Override<K, V>(table: map<K, V>, rows: seq<Row<K, V>>): map<K, V>
    decreases |rows|
  {
    if rows == [] then table
    else
      var n := |rows| - 1;
      Override(table, rows[..n])[rows[n].0 := rows[n].1]
  }

  predicate RepeatsKey<K(==), V>(rows: seq<Row<K, V>>) {
    exists i, j :: 0 <= i < j < |rows| && rows[i].0 == rows[j].0
  }

  /** Two rows of one batch share a key. */
  predicate RepeatsWithin<K(==), V>(rows: seq<Row<K, V>>, batch: nat)
    requires 0 < batch
  {
    exists i, j :: 0 <= i < j < |rows| && rows[i].0 == rows[j].0 && i / batch == j / batch
  }

  predicate AllRefer<K, V>(rows: seq<Row<K, V>>, refers: Row<K, V> -> bool) {
    forall i :: 0 <= i < |rows| ==> refers(rows[i])
  }

  /** One INSERT ... ON CONFLICT DO UPDATE of every other column, its foreign keys checked when the
      statement ends. */
  function Statement<K(==), V>(table: map<K, V>, rows: seq<Row<K, V>>, refers: Row<K, V> -> bool)
    : Result<map<K, V>, Failure>
  {
    if RepeatsKey(rows) then Err(RepeatedKey)
    else if !AllRefer(rows, refers) then Err(DanglingReference)
    else Ok(Override(table, rows))
  }

  function FirstChunk(n: nat, batch: nat): (k: nat)
    requires 0 < batch
    ensures k <= n && (0 < n ==> 0 < k)
  {
    if batch <= n then batch else n
  }

  function Upserted<K(==), V>(table: map<K, V>, rows: seq<Row<K, V>>, batch: nat, refers: Row<K, V> -> bool)
    : Result<map<K, V>, Failure>
    requires 0 < batch
    decreases |rows|
  {
    if rows == [] then Ok(table)
    else
      var n := FirstChunk(|rows|, batch);
      var table' :- Statement(table, rows[..n], refers);
      Upserted(table', rows[n..], batch, refers)
  }

  // ---------------------------------------------------------------- what Override means

  ghost predicate Mentions<K, V>(rows: seq<Row<K, V>>, k: K) {
    exists i :: 0 <= i < |rows| && rows[i].0 == k
  }

  lemma {:induction false} OverrideAppend<K, V>(table: map<K, V>, a: seq<Row<K, V>>, b: seq<Row<K, V>>)
    ensures Override(table, a + b) == Override(Override(table, a), b)
    decreases |b|
  {
    if b == [] {
      assert a + b == a;
    } else {
      var n := |b| - 1;
      assert (a + b)[..|a| + n] == a + b[..n];
      OverrideAppend(table, a, b[..n]);
    }
  }

  lemma {:induction false} OverrideElsewhere<K, V>(table: map<K, V>, rows: seq<Row<K, V>>, k: K)
    requires !Mentions(rows, k)
    ensures k in Override(table, rows) <==> k in table
    ensures k in table ==> Override(table, rows)[k] == table[k]
    decreases |rows|
  {
    if rows != [] {
      var n := |rows| - 1;
      assert forall i :: 0 <= i < n ==> rows[..n][i] == rows[i];
      OverrideElsewhere(table, rows[..n], k);
      assert rows[n].0 != k;
    }
  }

  lemma {:induction false} OverrideLast<K, V>(table: map<K, V>, rows: seq<Row<K, V>>, i: nat)
    requires i < |rows| && forall j :: i < j < |rows| ==> rows[j].0 != rows[i].0
    ensures rows[i].0 in Override(table, rows) && Override(table, rows)[rows[i].0] == rows[i].1
    decreases |rows|
  {
    var n := |rows| - 1;
    if i < n {
      OverrideLast(table, rows[..n], i);
    }
  }

  /** Every entry is an old one no row mentions, or one of the rows. */
  lemma {:induction false} OverrideOrigin<K, V>(table: map<K, V>, rows: seq<Row<K, V>>, k: K)
    ensures k in Override(table, rows) <==> k in table || Mentions(rows, k)
    ensures k in Override(table, rows) && Mentions(rows, k) ==> (k, Override(table, rows)[k]) in rows
    ensures k in Override(table, rows) && !Mentions(rows, k) ==> k in table && Override(table, rows)[k] == table[k]
    decreases |rows|
  {
    if !Mentions(rows, k) {
      OverrideElsewhere(table, rows, k);
    } else {
      var n := |rows| - 1;
      if rows[n].0 == k {
        assert rows[n] == (k, Override(table, rows)[k]);
      } else {
        var i :| 0 <= i < |rows| && rows[i].0 == k;
        assert rows[..n][i].0 == k;
        OverrideOrigin(table, rows[..n], k);
      }
    }
  }

  lemma OverrideTwiceAt<K, V>(table: map<K, V>, rows: seq<Row<K, V>>, k: K)
    ensures var once := Override(table, rows);
            var twice := Override(once, rows);
            (k in twice <==> k in once) && (k in once ==> twice[k] == once[k])
  {
    var once := Override(table, rows);
    OverrideOrigin(table, rows, k);
    OverrideOrigin(once, rows, k);
    if Mentions(rows, k) {
      var i := LastMention(rows, k);
      OverrideLast(table, rows, i);
      OverrideLast(once, rows, i);
    }
  }

  /** Writing the same rows again changes nothing. */
  lemma OverrideTwice<K(!new), V>(table: map<K, V>, rows: seq<Row<K, V>>)
    ensures Override(Override(table, rows), rows) == Override(table, rows)
  {
    hide Override;
    var once := Override(table, rows);
    var twice := Override(once, rows);
    forall k
      ensures (k in twice <==> k in once) && (k in once ==> twice[k] == once[k])
    {
      OverrideTwiceAt(table, rows, k);
    }
    assert twice.Keys == once.Keys;
  }

  lemma {:induction false} LastMention<K, V>(rows: seq<Row<K, V>>, k: K) returns (i: nat)
    requires Mentions(rows, k)
    ensures i < |rows| && rows[i].0 == k && forall j :: i < j < |rows| ==> rows[j].0 != k
    decreases |rows|
  {
    var n := |rows| - 1;
    if rows[n].0 == k {
      return n;
    } else {
      var m :| 0 <= m < |rows| && rows[m].0 == k;
      assert rows[..n][m].0 == k;
      i := LastMention(rows[..n], k);
    }
  }

  // ---------------------------------------------------------------- chunking

  lemma SameBatchFromStart(i: int, j: int, batch: nat)
    requires 0 < batch && 0 <= i < j
    ensures j < batch ==> i / batch == j / batch
    ensures i < batch <= j ==> i / batch != j / batch
    ensures batch <= i ==> (i / batch == j / batch <==> (i - batch) / batch == (j - batch) / batch)
  {
    QuotientShift(i, batch);
    QuotientShift(j, batch);
    QuotientSmall(i, batch);
    QuotientSmall(j, batch);
  }

  lemma QuotientSmall(i: int, batch: nat)
    requires 0 < batch && 0 <= i
    ensures i < batch <==> i / batch == 0
  {
    assert i == (i / batch) * batch + i % batch;
    if i / batch >= 1 {
      assert (i / batch) * batch >= batch;
    }
  }

  lemma QuotientShift(i: int, batch: nat)
    requires 0 < batch
    ensures (i - batch) / batch == i / batch - 1
  {
    var q, r := i / batch, i % batch;
    assert i - batch == (q - 1) * batch + r;
    UniqueQuotient(i - batch, batch, q - 1, r);
  }

  lemma UniqueQuotient(i: int, batch: nat, q: int, r: int)
    requires 0 < batch && i == q * batch + r && 0 <= r < batch
    ensures i / batch == q
  {
    var d := i / batch - q;
    assert d * batch == r - i % batch;
    assert d >= 1 ==> d * batch >= batch;
    assert d <= -1 ==> d * batch + batch <= 0;
  }

  lemma RepeatsInSomePart<K, V>(rows: seq<Row<K, V>>, batch: nat)
    requires 0 < batch && rows != [] && RepeatsWithin(rows, batch)
    ensures var n := FirstChunk(|rows|, batch); RepeatsKey(rows[..n]) || RepeatsWithin(rows[n..], batch)
  {
    var n := FirstChunk(|rows|, batch);
    var i, j :| 0 <= i < j < |rows| && rows[i].0 == rows[j].0 && i / batch == j / batch;
    SameBatchFromStart(i, j, batch);
    if j < n {
      assert rows[..n][i].0 == rows[..n][j].0;
    } else {
      assert rows[n..][i - n].0 == rows[n..][j - n].0;
    }
  }

  lemma RepeatsInTheWhole<K, V>(rows: seq<Row<K, V>>, batch: nat)
    requires 0 < batch && rows != []
    requires var n := FirstChunk(|rows|, batch); RepeatsKey(rows[..n]) || RepeatsWithin(rows[n..], batch)
    ensures RepeatsWithin(rows, batch)
  {
    var n := FirstChunk(|rows|, batch);
    if RepeatsKey(rows[..n]) {
      var i, j :| 0 <= i < j < n && rows[..n][i].0 == rows[..n][j].0;
      SameBatchFromStart(i, j, batch);
      assert rows[i].0 == rows[j].0;
    } else {
      var i, j :| 0 <= i < j < |rows[n..]| && rows[n..][i].0 == rows[n..][j].0 && i / batch == j / batch;
      SameBatchFromStart(i + n, j + n, batch);
      assert rows[i + n].0 == rows[j + n].0;
    }
  }

  lemma RepeatsSplit<K, V>(rows: seq<Row<K, V>>, batch: nat)
    requires 0 < batch && rows != []
    ensures var n := FirstChunk(|rows|, batch);
            RepeatsWithin(rows, batch) <==> RepeatsKey(rows[..n]) || RepeatsWithin(rows[n..], batch)
  {
    hide RepeatsWithin, RepeatsKey;
    var n := FirstChunk(|rows|, batch);
    if RepeatsWithin(rows, batch) {
      RepeatsInSomePart(rows, batch);
    }
    if RepeatsKey(rows[..n]) || RepeatsWithin(rows[n..], batch) {
      RepeatsInTheWhole(rows, batch);
    }
  }

  lemma AllReferSplit<K, V>(rows: seq<Row<K, V>>, n: nat, refers: Row<K, V> -> bool)
    requires n <= |rows|
    ensures AllRefer(rows, refers) <==> AllRefer(rows[..n], refers) && AllRefer(rows[n..], refers)
  {
    assert forall i :: n <= i < |rows| ==> rows[i] == rows[n..][i - n];
  }

  /** For any batch size a chunked upsert succeeds exactly if no batch repeats a key and every row's
      references resolve, and what it then leaves does not depend on the batch size. */
  lemma {:induction false} ChunkedIsOverride<K, V>(table: map<K, V>, rows: seq<Row<K, V>>, batch: nat,
                                                   refers: Row<K, V> -> bool)
    requires 0 < batch
    ensures Upserted(table, rows, batch, refers).Ok? <==> !RepeatsWithin(rows, batch) && AllRefer(rows, refers)
    ensures Upserted(table, rows, batch, refers).Ok? ==>
              Upserted(table, rows, batch, refers).value == Override(table, rows)
    decreases |rows|
  {
    if rows != [] {
      hide Override, RepeatsWithin, RepeatsKey;
      var n := FirstChunk(|rows|, batch);
      RepeatsSplit(rows, batch);
      OverrideAppend(table, rows[..n], rows[n..]);
      assert rows[..n] + rows[n..] == rows;
      AllReferSplit(rows, n, refers);
      var step := Statement(table, rows[..n], refers);
      if step.Ok? {
        ChunkedIsOverride(step.value, rows[n..], batch, refers);
      }
    }
  }

  /** The batch size does decide whether a repeated key is accepted. */
  lemma BatchSizeMatters<K, V>(table: map<K, V>, k: K, v: V, w: V, refers: Row<K, V> -> bool)
    requires refers((k, v)) && refers((k, w))
    ensures Upserted(table, [(k, v), (k, w)], 1, refers) == Ok(table[k := w])
    ensures Upserted(table, [(k, v), (k, w)], 2, refers).Err?
  {
    var rows := [(k, v), (k, w)];
    ChunkedIsOverride(table, rows, 1, refers);
    ChunkedIsOverride(table, rows, 2, refers);
    assert rows[0].0 == rows[1].0 && 0 / 2 == 1 / 2;
    assert rows[..1] == [(k, v)] && rows[..1][..0] == [];
    assert Override(table, rows[..1]) == Override(table, [])[k := v];
    assert Override(table, rows) == table[k := v][k := w] == table[k := w];
    assert 0 / 1 != 1 / 1;
    assert !RepeatsWithin(rows, 1);
  }

  /** The loop over chunks. */
  method Upsert<K(==), V>(table: map<K, V>, rows: seq<Row<K, V>>, batch: nat, refers: Row<K, V> -> bool)
    returns (r: Result<map<K, V>, Failure>)
    requires 0 < batch
    ensures r == Upserted(table, rows, batch, refers)
    ensures r.Ok? <==> !RepeatsWithin(rows, batch) && AllRefer(rows, refers)
    ensures r.Ok? ==> r.value == Override(table, rows)
  {
    hide Override, Statement, RepeatsWithin, AllRefer;
    ChunkedIsOverride(table, rows, batch, refers);
    var current, i := table, 0;
    while i < |rows|
      invariant 0 <= i <= |rows|
      invariant Upserted(current, rows[i..], batch, refers) == Upserted(table, rows, batch, refers)
      decreases |rows| - i
    {
      var n := FirstChunk(|rows| - i, batch);
      var chunk := rows[i..i + n];
      assert rows[i..][..n] == chunk && rows[i..][n..] == rows[i + n..];
      var step := Statement(current, chunk, refers);
      if step.Err? {
        return Err(step.error);
      }
      current, i := step.value, i + n;
    }
    return Ok(current);
  }
}
