/**
 Backfilling a table in batches, one transaction each: insert a row unless its id is there, and fail the
 batch if the row that is there differs. Batch sizes and interruptions do not show in the result.
 */
module Backfill {
  import opened Options
  import opened Numbers

  datatype Batch<K, R> = Stored(table: map<K, R>, inserted: nat) | Conflicting

  datatype Outcome<K, R> = Outcome(table: map<K, R>, inserted: nat, conflict: bool)

  /** The row goes in, is there already, or differs from the one that is there. */
  function InsertRow<K, R(==)>(table: map<K, R>, id: K, row: R): Batch<K, R> {
    if id !in table then Stored(table[id := row], 1)
    else if table[id] == row then Stored(table, 0)
    else Conflicting
  }

  /** One transaction: all its rows or none. */
  function InsertBatch<K, R(==)>(table: map<K, R>, rows: seq<R>, id: R -> K): Batch<K, R> {
    if rows == [] then Stored(table, 0)
    else
      var front := InsertBatch(table, rows[..|rows| - 1], id);
      if front.Conflicting? then Conflicting
      else
        var row := rows[|rows| - 1];
        var last := InsertRow(front.table, id(row), row);
        if last.Conflicting? then Conflicting else Stored(last.table, front.inserted + last.inserted)
  }

  /** Batch after batch until the rows run out or a batch conflicts. */
  function InsertAll<K, R(==)>(table: map<K, R>, rows: seq<R>, id: R -> K, batchSize: nat): Outcome<K, R>
    requires batchSize >= 1
    decreases |rows|
  {
    if rows == [] then Outcome(table, 0, false)
    else
      var n := AtMost(batchSize, |rows|);
      var batch := InsertBatch(table, rows[..n], id);
      if batch.Conflicting? then Outcome(table, 0, true)
      else
        var rest := InsertAll(batch.table, rows[n..], id, batchSize);
        Outcome(rest.table, batch.inserted + rest.inserted, rest.conflict)
  }

  // ------------------------------------------------------------------------ what rows amount to

  /** Rows agree with the table and with each other wherever ids meet. */
  predicate Compatible<K, R(==)>(table: map<K, R>, rows: seq<R>, id: R -> K) {
    && (forall n :: 0 <= n < |rows| && id(rows[n]) in table ==> table[id(rows[n])] == rows[n])
    && (forall m, n :: 0 <= m < n < |rows| && id(rows[m]) == id(rows[n]) ==> rows[m] == rows[n])
  }

  /** The table with the rows whose ids it lacks. */
  ghost predicate IsMerged<K, R>(merged: map<K, R>, table: map<K, R>, rows: seq<R>, id: R -> K) {
    && (forall k :: k in table ==> k in merged && merged[k] == table[k])
    && (forall n :: 0 <= n < |rows| ==> id(rows[n]) in merged && merged[id(rows[n])] == rows[n])
    && (forall k :: k in merged ==> k in table || exists n :: 0 <= n < |rows| && id(rows[n]) == k)
  }

  lemma MergedIsUnique<K, R>(a: map<K, R>, b: map<K, R>, table: map<K, R>, rows: seq<R>, id: R -> K)
    requires IsMerged(a, table, rows, id) && IsMerged(b, table, rows, id)
    ensures a == b
  {
    forall k
      ensures k in a <==> k in b
      ensures k in a && k in b ==> a[k] == b[k]
    {
      if k in a && k !in table {
        var n :| 0 <= n < |rows| && id(rows[n]) == k;
      }
      if k in b && k !in table {
        var n :| 0 <= n < |rows| && id(rows[n]) == k;
      }
    }
  }

  lemma CompatibleFront<K, R>(table: map<K, R>, front: seq<R>, row: R, id: R -> K)
    ensures Compatible(table, front + [row], id)
       <==> Compatible(table, front, id) && (id(row) in table ==> table[id(row)] == row)
            && forall n :: 0 <= n < |front| && id(front[n]) == id(row) ==> front[n] == row
  {
    var rows := front + [row];
    assert forall n :: 0 <= n < |front| ==> rows[n] == front[n];
    assert rows[|front|] == row;
  }

  lemma MergedAppend<K, R>(merged: map<K, R>, table: map<K, R>, front: seq<R>, row: R, id: R -> K)
    requires IsMerged(merged, table, front, id) && (id(row) in merged ==> merged[id(row)] == row)
    ensures IsMerged(merged[id(row) := row], table, front + [row], id)
  {
    var rows, after := front + [row], merged[id(row) := row];
    assert rows[|front|] == row;
    forall k | k in after && k !in table
      ensures exists n :: 0 <= n < |rows| && id(rows[n]) == k
    {
      if k in merged {
        var n :| 0 <= n < |front| && id(front[n]) == k;
        assert rows[n] == front[n];
      }
    }
  }

  lemma AddedOne<K, R>(merged: map<K, R>, k: K, row: R)
    ensures |merged[k := row]| == |merged| + if k in merged then 0 else 1
  {
    assert merged[k := row].Keys == merged.Keys + {k};
  }

  /** A batch goes through exactly when its rows are compatible, and then adds what the table lacks. */
  lemma {:induction false} BatchMerges<K, R>(table: map<K, R>, rows: seq<R>, id: R -> K)
    ensures InsertBatch(table, rows, id).Stored? <==> Compatible(table, rows, id)
    ensures InsertBatch(table, rows, id).Stored? ==>
              && IsMerged(InsertBatch(table, rows, id).table, table, rows, id)
              && InsertBatch(table, rows, id).inserted == |InsertBatch(table, rows, id).table| - |table|
  {
    if rows != [] {
      var front, row := rows[..|rows| - 1], rows[|rows| - 1];
      assert rows == front + [row];
      BatchMerges(table, front, id);
      CompatibleFront(table, front, row, id);
      if Compatible(table, front, id) {
        var before := InsertBatch(table, front, id);
        RowFits(before.table, table, front, row, id);
        if InsertRow(before.table, id(row), row).Stored? {
          MergedAppend(before.table, table, front, row, id);
          AddedOne(before.table, id(row), row);
          assert id(row) in before.table ==> before.table[id(row) := row] == before.table;
        }
      }
    }
  }

  /** The next row fits the merged table exactly when it agrees with the table and the rows before it. */
  lemma RowFits<K, R>(merged: map<K, R>, table: map<K, R>, front: seq<R>, row: R, id: R -> K)
    requires IsMerged(merged, table, front, id)
    ensures InsertRow(merged, id(row), row).Stored?
       <==> (id(row) in table ==> table[id(row)] == row)
            && forall n :: 0 <= n < |front| && id(front[n]) == id(row) ==> front[n] == row
  {
    if id(row) in merged && id(row) !in table {
      var n :| 0 <= n < |front| && id(front[n]) == id(row);
    }
  }

  lemma MergedConcat<K, R>(end: map<K, R>, middle: map<K, R>, table: map<K, R>, a: seq<R>, b: seq<R>, id: R -> K)
    requires IsMerged(middle, table, a, id) && IsMerged(end, middle, b, id)
    ensures IsMerged(end, table, a + b, id)
  {
    var rows := a + b;
    forall n | 0 <= n < |rows|
      ensures id(rows[n]) in end && end[id(rows[n])] == rows[n]
    {
      assert rows[n] == if n < |a| then a[n] else b[n - |a|];
    }
    forall k | k in end && k !in table
      ensures exists n :: 0 <= n < |rows| && id(rows[n]) == k
    {
      if k in middle {
        var n :| 0 <= n < |a| && id(a[n]) == k;
        assert rows[n] == a[n];
      } else {
        var n :| 0 <= n < |b| && id(b[n]) == k;
        assert rows[|a| + n] == b[n];
      }
    }
  }

  /** After the first rows, the rest fits exactly when everything does. */
  lemma CompatibleConcat<K, R>(middle: map<K, R>, table: map<K, R>, a: seq<R>, b: seq<R>, id: R -> K)
    requires IsMerged(middle, table, a, id) && Compatible(table, a, id)
    ensures Compatible(middle, b, id) <==> Compatible(table, a + b, id)
  {
    var rows := a + b;
    if Compatible(middle, b, id) {
      RestFits(middle, table, a, b, id);
    }
    if Compatible(table, rows, id) {
      forall n | 0 <= n < |b|
        ensures id(b[n]) in middle ==> middle[id(b[n])] == b[n]
        ensures forall m :: 0 <= m < n && id(b[m]) == id(b[n]) ==> b[m] == b[n]
      {
        assert rows[|a| + n] == b[n];
        if id(b[n]) in middle && id(b[n]) !in table {
          var m :| 0 <= m < |a| && id(a[m]) == id(b[n]);
          assert rows[m] == a[m];
        }
        assert forall m :: 0 <= m < n ==> rows[|a| + m] == b[m];
      }
    }
  }

  lemma RestFits<K, R>(middle: map<K, R>, table: map<K, R>, a: seq<R>, b: seq<R>, id: R -> K)
    requires IsMerged(middle, table, a, id) && Compatible(table, a, id) && Compatible(middle, b, id)
    ensures Compatible(table, a + b, id)
  {
    var rows := a + b;
    forall n | 0 <= n < |rows|
      ensures id(rows[n]) in table ==> table[id(rows[n])] == rows[n]
    {
      assert rows[n] == if n < |a| then a[n] else b[n - |a|];
    }
    forall m, n | 0 <= m < n < |rows| && id(rows[m]) == id(rows[n])
      ensures rows[m] == rows[n]
    {
      assert rows[m] == if m < |a| then a[m] else b[m - |a|];
      assert rows[n] == if n < |a| then a[n] else b[n - |a|];
    }
  }

  // ------------------------------------------------------------------------------------- theorems

  /**
   For every batch size: the backfill conflicts exactly when the rows are not compatible with the table
   and each other; otherwise it leaves the table with every row it lacked and counts exactly those.
   */
  lemma {:induction false} BackfillMerges<K, R>(table: map<K, R>, rows: seq<R>, id: R -> K, batchSize: nat)
    requires batchSize >= 1
    ensures InsertAll(table, rows, id, batchSize).conflict <==> !Compatible(table, rows, id)
    ensures Compatible(table, rows, id) ==>
              && IsMerged(InsertAll(table, rows, id, batchSize).table, table, rows, id)
              && InsertAll(table, rows, id, batchSize).inserted
                 == |InsertAll(table, rows, id, batchSize).table| - |table|
    decreases |rows|
  {
    if rows != [] {
      var n := AtMost(batchSize, |rows|);
      var first, rest := rows[..n], rows[n..];
      assert rows == first + rest;
      BatchMerges(table, first, id);
      var batch := InsertBatch(table, first, id);
      if batch.Stored? {
        BackfillMerges(batch.table, rest, id, batchSize);
        CompatibleConcat(batch.table, table, first, rest, id);
        if Compatible(table, rows, id) {
          MergedConcat(InsertAll(batch.table, rest, id, batchSize).table, batch.table, table, first, rest, id);
        }
      } else {
        PrefixCompatible(table, first, rest, id);
      }
    }
  }

  lemma PrefixCompatible<K, R>(table: map<K, R>, a: seq<R>, b: seq<R>, id: R -> K)
    ensures Compatible(table, a + b, id) ==> Compatible(table, a, id)
  {
    assert forall n :: 0 <= n < |a| ==> (a + b)[n] == a[n];
  }

  /** The batch size shows neither in the tables nor in the count. */
  lemma BatchSizeIndependent<K, R>(table: map<K, R>, rows: seq<R>, id: R -> K, a: nat, b: nat)
    requires a >= 1 && b >= 1
    ensures InsertAll(table, rows, id, a).conflict == InsertAll(table, rows, id, b).conflict
    ensures !InsertAll(table, rows, id, a).conflict ==> InsertAll(table, rows, id, a) == InsertAll(table, rows, id, b)
  {
    BackfillMerges(table, rows, id, a);
    BackfillMerges(table, rows, id, b);
    if Compatible(table, rows, id) {
      MergedIsUnique(InsertAll(table, rows, id, a).table, InsertAll(table, rows, id, b).table, table, rows, id);
    }
  }

  function Then<K, R(==)>(first: Batch<K, R>, rows: seq<R>, id: R -> K): Batch<K, R> {
    if first.Conflicting? then Conflicting
    else
      var rest := InsertBatch(first.table, rows, id);
      if rest.Conflicting? then Conflicting else Stored(rest.table, first.inserted + rest.inserted)
  }

  /** One batch of all rows is one batch after the other. */
  lemma {:induction false} BatchConcat<K, R>(table: map<K, R>, a: seq<R>, b: seq<R>, id: R -> K)
    ensures InsertBatch(table, a + b, id) == Then(InsertBatch(table, a, id), b, id)
  {
    if b == [] {
      assert a + b == a;
    } else {
      var front, row := b[..|b| - 1], b[|b| - 1];
      BatchConcat(table, a, front, id);
      assert (a + b)[..|a + b| - 1] == a + front && (a + b)[|a + b| - 1] == row;
    }
  }

  /** The rows of the batches that went in. */
  function Committed<K, R(==)>(table: map<K, R>, rows: seq<R>, id: R -> K, batchSize: nat): seq<R>
    requires batchSize >= 1
    decreases |rows|
  {
    if rows == [] then []
    else
      var size := AtMost(batchSize, |rows|);
      var batch := InsertBatch(table, rows[..size], id);
      if batch.Conflicting? then [] else rows[..size] + Committed(batch.table, rows[size..], id, batchSize)
  }

  /** The same and the batch after them, if there is one. */
  function Attempted<K, R(==)>(table: map<K, R>, rows: seq<R>, id: R -> K, batchSize: nat): seq<R>
    requires batchSize >= 1
    decreases |rows|
  {
    if rows == [] then []
    else
      var size := AtMost(batchSize, |rows|);
      var batch := InsertBatch(table, rows[..size], id);
      if batch.Conflicting? then rows[..size] else rows[..size] + Attempted(batch.table, rows[size..], id, batchSize)
  }

  /** Between two batches: after some number of whole ones. */
  predicate AtBoundary(n: nat, batchSize: nat)
    requires batchSize >= 1
  {
    n == 0 || (n >= batchSize && AtBoundary(n - batchSize, batchSize))
  }

  lemma FrontConcat<R>(rows: seq<R>, size: nat, k: nat)
    requires size <= |rows| && k <= |rows[size..]|
    ensures rows[..size] + rows[size..][..k] == rows[..size + k]
  {
  }

  lemma {:induction false} CommittedIsPrefix<K, R>(table: map<K, R>, rows: seq<R>, id: R -> K, batchSize: nat)
    requires batchSize >= 1
    ensures var done := Committed(table, rows, id, batchSize);
            |done| <= |rows| && done == rows[..|done|]
    decreases |rows|
  {
    if rows != [] {
      var size := AtMost(batchSize, |rows|);
      var first, rest := rows[..size], rows[size..];
      var batch := InsertBatch(table, first, id);
      if batch.Stored? {
        CommittedIsPrefix(batch.table, rest, id, batchSize);
        FrontConcat(rows, size, |Committed(batch.table, rest, id, batchSize)|);
      }
    }
  }

  lemma BoundaryNext(n: nat, batchSize: nat)
    requires batchSize >= 1
    ensures AtBoundary(n, batchSize) ==> AtBoundary(batchSize + n, batchSize)
  {
  }

  /** The committed rows end between two batches, and are all of the rows unless a batch conflicts. */
  lemma {:induction false} StopsAtBoundary<K, R>(table: map<K, R>, rows: seq<R>, id: R -> K, batchSize: nat)
    requires batchSize >= 1
    ensures var n := |Committed(table, rows, id, batchSize)|;
            && n <= |rows| && (InsertAll(table, rows, id, batchSize).conflict <==> n < |rows|)
            && (n < |rows| ==> AtBoundary(n, batchSize))
    decreases |rows|
  {
    if rows != [] {
      var size := AtMost(batchSize, |rows|);
      var batch := InsertBatch(table, rows[..size], id);
      if batch.Stored? {
        var rest := rows[size..];
        StopsAtBoundary(batch.table, rest, id, batchSize);
        assert |rest| == |rows| - size;
        assert |Committed(table, rows, id, batchSize)| == size + |Committed(batch.table, rest, id, batchSize)|;
        BoundaryNext(|Committed(batch.table, rest, id, batchSize)|, batchSize);
      }
    }
  }

  /** The attempted rows are a batch more than the committed ones, or all of them. */
  lemma {:induction false} AttemptedIsNext<K, R>(table: map<K, R>, rows: seq<R>, id: R -> K, batchSize: nat)
    requires batchSize >= 1
    ensures var done, tried := Committed(table, rows, id, batchSize), Attempted(table, rows, id, batchSize);
            |tried| == AtMost(|done| + batchSize, |rows|) && tried == rows[..|tried|]
    decreases |rows|
  {
    if rows != [] {
      var size := AtMost(batchSize, |rows|);
      var first, rest := rows[..size], rows[size..];
      var batch := InsertBatch(table, first, id);
      if batch.Stored? {
        AttemptedIsNext(batch.table, rest, id, batchSize);
        FrontConcat(rows, size, |Attempted(batch.table, rest, id, batchSize)|);
      }
    }
  }

  /** What a run leaves is what one transaction of its committed rows would. */
  lemma {:induction false} CommittedRowsAreStored<K, R>(table: map<K, R>, rows: seq<R>, id: R -> K, batchSize: nat)
    requires batchSize >= 1
    ensures var all := InsertAll(table, rows, id, batchSize);
            InsertBatch(table, Committed(table, rows, id, batchSize), id) == Stored(all.table, all.inserted)
    decreases |rows|
  {
    if rows != [] {
      var size := AtMost(batchSize, |rows|);
      var first, rest := rows[..size], rows[size..];
      var batch := InsertBatch(table, first, id);
      if batch.Stored? {
        CommittedRowsAreStored(batch.table, rest, id, batchSize);
        BatchConcat(table, first, Committed(batch.table, rest, id, batchSize), id);
      }
    }
  }

  /** On a conflict, the rows with those of the conflicting batch cannot go in. */
  lemma {:induction false} AttemptedRowsConflict<K, R>(table: map<K, R>, rows: seq<R>, id: R -> K, batchSize: nat)
    requires batchSize >= 1 && InsertAll(table, rows, id, batchSize).conflict
    ensures InsertBatch(table, Attempted(table, rows, id, batchSize), id).Conflicting?
    decreases |rows|
  {
    var size := AtMost(batchSize, |rows|);
    var first, rest := rows[..size], rows[size..];
    var batch := InsertBatch(table, first, id);
    if batch.Stored? {
      AttemptedRowsConflict(batch.table, rest, id, batchSize);
      BatchConcat(table, first, Attempted(batch.table, rest, id, batchSize), id);
    }
  }

  /**
   A conflict leaves exactly the whole batches before it, as one transaction of their rows would, and the
   rows up to the end of its own batch cannot go in.
   */
  lemma ConflictLeavesWholeBatches<K, R>(table: map<K, R>, rows: seq<R>, id: R -> K, batchSize: nat)
    requires batchSize >= 1 && InsertAll(table, rows, id, batchSize).conflict
    ensures var all, n := InsertAll(table, rows, id, batchSize), |Committed(table, rows, id, batchSize)|;
            && n < |rows| && AtBoundary(n, batchSize)
            && InsertBatch(table, rows[..n], id) == Stored(all.table, all.inserted)
            && InsertBatch(table, rows[..AtMost(n + batchSize, |rows|)], id).Conflicting?
  {
    CommittedIsPrefix(table, rows, id, batchSize);
    StopsAtBoundary(table, rows, id, batchSize);
    AttemptedIsNext(table, rows, id, batchSize);
    CommittedRowsAreStored(table, rows, id, batchSize);
    AttemptedRowsConflict(table, rows, id, batchSize);
  }

  /**
   Rerunning after any stop, with any batch size: what stopped after `n` rows is completed to the same
   table, the counts add up, and it conflicts exactly when a single run does.
   */
  lemma ResumeCompletes<K, R>(table: map<K, R>, rows: seq<R>, id: R -> K, n: nat, batchSize: nat, other: nat)
    requires n <= |rows| && InsertBatch(table, rows[..n], id).Stored? && batchSize >= 1 && other >= 1
    ensures var stopped, whole := InsertBatch(table, rows[..n], id), InsertAll(table, rows, id, batchSize);
            var again := InsertAll(stopped.table, rows, id, other);
            && again.conflict == whole.conflict
            && (!whole.conflict ==> again.table == whole.table && stopped.inserted + again.inserted == whole.inserted)
  {
    var left := InsertBatch(table, rows[..n], id).table;
    BatchMerges(table, rows[..n], id);
    ResumeMerges(left, table, rows, id, n, batchSize, other);
  }

  lemma ResumeMerges<K, R>(left: map<K, R>, table: map<K, R>, rows: seq<R>, id: R -> K, n: nat, batchSize: nat,
                           other: nat)
    requires n <= |rows| && Compatible(table, rows[..n], id) && IsMerged(left, table, rows[..n], id)
    requires batchSize >= 1 && other >= 1
    ensures InsertAll(left, rows, id, other).conflict == InsertAll(table, rows, id, batchSize).conflict
    ensures !InsertAll(table, rows, id, batchSize).conflict ==>
              && InsertAll(left, rows, id, other).table == InsertAll(table, rows, id, batchSize).table
              && |left| - |table| + InsertAll(left, rows, id, other).inserted
                 == InsertAll(table, rows, id, batchSize).inserted
  {
    BackfillMerges(table, rows, id, batchSize);
    BackfillMerges(left, rows, id, other);
    ResumeCompatible(left, table, rows, id, n);
    if Compatible(table, rows, id) {
      MergesAgree(InsertAll(left, rows, id, other).table, InsertAll(table, rows, id, batchSize).table, left, table,
                  rows, id, n);
    }
  }

  lemma ResumeCompatible<K, R>(left: map<K, R>, table: map<K, R>, rows: seq<R>, id: R -> K, n: nat)
    requires n <= |rows| && IsMerged(left, table, rows[..n], id) && Compatible(table, rows[..n], id)
    ensures Compatible(left, rows, id) <==> Compatible(table, rows, id)
  {
    AgainCompatible(left, table, rows[..n], rows[n..], id);
    assert rows == rows[..n] + rows[n..];
  }

  /** Merging all rows over what some of them left is merging them once. */
  lemma MergesAgree<K, R>(end: map<K, R>, whole: map<K, R>, left: map<K, R>, table: map<K, R>, rows: seq<R>,
                          id: R -> K, n: nat)
    requires n <= |rows| && IsMerged(left, table, rows[..n], id)
    requires IsMerged(end, left, rows, id) && IsMerged(whole, table, rows, id)
    ensures end == whole
  {
    assert rows == rows[..n] + rows[n..];
    MergedAgain(end, left, table, rows[..n], rows[n..], id);
    MergedIsUnique(end, whole, table, rows, id);
  }

  lemma AgainCompatible<K, R>(left: map<K, R>, table: map<K, R>, a: seq<R>, b: seq<R>, id: R -> K)
    requires IsMerged(left, table, a, id) && Compatible(table, a, id)
    ensures Compatible(left, a + b, id) <==> Compatible(table, a + b, id)
  {
    var rows := a + b;
    assert forall n :: 0 <= n < |a| ==> rows[n] == a[n];
    if Compatible(table, rows, id) {
      forall n | 0 <= n < |rows| && id(rows[n]) in left
        ensures left[id(rows[n])] == rows[n]
      {
        if id(rows[n]) !in table {
          var m :| 0 <= m < |a| && id(a[m]) == id(rows[n]);
          assert rows[m] == a[m];
        }
      }
    }
  }

  lemma MergedAgain<K, R>(end: map<K, R>, left: map<K, R>, table: map<K, R>, a: seq<R>, b: seq<R>, id: R -> K)
    requires IsMerged(left, table, a, id) && IsMerged(end, left, a + b, id)
    ensures IsMerged(end, table, a + b, id)
  {
    var rows := a + b;
    forall k | k in end && k !in table
      ensures exists n :: 0 <= n < |rows| && id(rows[n]) == k
    {
      if k in left {
        var n :| 0 <= n < |a| && id(a[n]) == k;
        assert rows[n] == a[n];
      }
    }
  }

  /** A further run inserts nothing and changes nothing. */
  lemma RerunInsertsNothing<K, R>(table: map<K, R>, rows: seq<R>, id: R -> K, batchSize: nat, other: nat)
    requires batchSize >= 1 && other >= 1 && !InsertAll(table, rows, id, batchSize).conflict
    ensures var end := InsertAll(table, rows, id, batchSize).table;
            InsertAll(end, rows, id, other) == Outcome(end, 0, false)
  {
    var end := InsertAll(table, rows, id, batchSize).table;
    BackfillMerges(table, rows, id, batchSize);
    BackfillMerges(table, rows, id, other);
    assert rows[..|rows|] == rows;
    ResumeMerges(end, table, rows, id, |rows|, batchSize, other);
    BackfillMerges(end, rows, id, other);
  }

  /** Whatever happens, a row that was there stays as it was. */
  lemma NothingIsOverwritten<K, R>(table: map<K, R>, rows: seq<R>, id: R -> K, batchSize: nat, k: K)
    requires batchSize >= 1 && k in table
    ensures k in InsertAll(table, rows, id, batchSize).table
            && InsertAll(table, rows, id, batchSize).table[k] == table[k]
  {
    BackfillMerges(table, rows, id, batchSize);
    if InsertAll(table, rows, id, batchSize).conflict {
      CommittedRowsAreStored(table, rows, id, batchSize);
      BatchMerges(table, Committed(table, rows, id, batchSize), id);
    }
  }

  // ------------------------------------------------------------------------------------ the program

  /** The target table and the loop over it. */
  class Target<K(==), R(==)> {
    var table: map<K, R>

    /** Inserts the rows of one batch; a conflict restores the table. */
    method InTransaction(batch: seq<R>, id: R -> K) returns (inserted: Option<nat>)
      modifies this
      ensures var result := InsertBatch(old(table), batch, id);
              if result.Stored? then table == result.table && inserted == Some(result.inserted)
              else table == old(table) && inserted.None?
    {
      var saved, count := table, 0;
      var n := 0;
      while n < |batch|
        invariant 0 <= n <= |batch|
        invariant InsertBatch(saved, batch[..n], id) == Stored(table, count)
      {
        assert batch[..n + 1][..n] == batch[..n];
        var row := batch[n];
        if id(row) !in table {
          table, count := table[id(row) := row], count + 1;
        } else if table[id(row)] != row {
          BatchMerges(saved, batch, id);
          BatchMerges(saved, batch[..n + 1], id);
          assert batch == batch[..n + 1] + batch[n + 1..];
          PrefixCompatible(saved, batch[..n + 1], batch[n + 1..], id);
          table := saved;
          return None;
        }
        n := n + 1;
      }
      assert batch[..n] == batch;
      return Some(count);
    }

    method InsertInBatches(rows: seq<R>, id: R -> K, batchSize: nat) returns (inserted: nat, conflict: bool)
      requires batchSize >= 1
      modifies this
      ensures Outcome(table, inserted, conflict) == InsertAll(old(table), rows, id, batchSize)
    {
      inserted, conflict := 0, false;
      var offset := 0;
      ghost var rest := rows;
      while offset < |rows|
        invariant 0 <= offset <= |rows| && rest == rows[offset..]
        invariant Continues(InsertAll(old(table), rows, id, batchSize), inserted, InsertAll(table, rest, id, batchSize))
        decreases |rows| - offset
      {
        var batch := rows[offset..offset + AtMost(batchSize, |rows| - offset)];
        assert batch == rest[..AtMost(batchSize, |rest|)];
        var stored := InTransaction(batch, id);
        if stored.None? {
          conflict := true;
          return;
        }
        inserted := inserted + stored.value;
        offset, rest := offset + |batch|, rest[|batch|..];
      }
    }
  }

  predicate Continues<K, R(==)>(whole: Outcome<K, R>, inserted: nat, rest: Outcome<K, R>) {
    whole == Outcome(rest.table, inserted + rest.inserted, rest.conflict)
  }
}
