/** Draining the outbox: claim a batch of rows, group by bucket, upsert, mark processed. */
module Rollup {
  import opened Schema

  /** `sum(column) WHERE id = ANY(ids) GROUP BY bucket`, for the group `k` and one column. */
  function ColumnSum(rows: seq<OutboxRow>, ids: set<nat>, k: Bucket, m: Measure): int {
    if |rows| == 0 then 0
    else
      var row := rows[|rows| - 1];
      ColumnSum(rows[..|rows| - 1], ids, k, m) + (if row.id in ids && row.bucket == k then row.delta.At(m) else 0)
  }

  function GroupSum(rows: seq<OutboxRow>, ids: set<nat>, k: Bucket): (r: Columns)
    ensures forall m: Measure :: r.At(m) == ColumnSum(rows, ids, k, m)
  {
    Columns(ColumnSum(rows, ids, k, TotalBet), ColumnSum(rows, ids, k, TotalWin), ColumnSum(rows, ids, k, Rounds),
            ColumnSum(rows, ids, k, RollbackCount), ColumnSum(rows, ids, k, RolledBackBet),
            ColumnSum(rows, ids, k, RolledBackWin))
  }

  function Buckets(rows: seq<OutboxRow>, ids: set<nat>): set<Bucket> {
    set row | row in rows && row.id in ids :: row.bucket
  }

  function Aggregate(rows: seq<OutboxRow>, ids: set<nat>): map<Bucket, Columns> {
    map k | k in Buckets(rows, ids) :: GroupSum(rows, ids, k)
  }

  /** `INSERT ... ON CONFLICT DO UPDATE SET column = column + EXCLUDED.column`. */
  function Upsert(m: map<Bucket, Columns>, added: map<Bucket, Columns>): map<Bucket, Columns> {
    map k | k in m.Keys + added.Keys :: Get(m, k).Plus(Get(added, k))
  }

  function SetStatus(rows: seq<OutboxRow>, ids: set<nat>, status: OutboxStatus): seq<OutboxRow> {
    seq(|rows|, i requires 0 <= i < |rows| => if rows[i].id in ids then rows[i].(status := status) else rows[i])
  }

  function PendingIds(rows: seq<OutboxRow>): set<nat> {
    set row | row in rows && row.status == Pending :: row.id
  }

  function ProcessingIds(rows: seq<OutboxRow>): set<nat> {
    set row | row in rows && row.status == Processing :: row.id
  }

  ghost predicate IsLeast(ids: set<nat>, m: nat) {
    m in ids && forall k | k in ids :: m <= k
  }

  lemma LeastExists(ids: set<nat>)
    requires ids != {}
    ensures exists m :: IsLeast(ids, m)
  {
    var c :| c in ids;
    var rest := ids - {c};
    assert ids == rest + {c};
    if rest == {} {
      assert IsLeast(ids, c);
    } else {
      LeastExists(rest);
      var m :| IsLeast(rest, m);
      assert IsLeast(ids, if m < c then m else c);
    }
  }

  /** The smallest element of a non-empty set. */
  function Least(ids: set<nat>): (m: nat)
    requires ids != {}
    ensures IsLeast(ids, m)
  {
    LeastExists(ids);
    var m :| m in ids && forall k | k in ids :: m <= k;
    m
  }

  /** `ORDER BY id LIMIT n`: as many ids as there are, up to `n`. */
  function Lowest(ids: set<nat>, n: nat): (r: set<nat>)
    ensures r <= ids && |r| == if n <= |ids| then n else |ids|
  {
    if n == 0 || ids == {} then {} else {Least(ids)} + Lowest(ids - {Least(ids)}, n - 1)
  }

  /** The limit skips no id below one it takes. */
  lemma {:induction false} LowestSkipsNone(ids: set<nat>, n: nat, k: nat, l: nat)
    requires k in ids && l in Lowest(ids, n) && k < l
    ensures k in Lowest(ids, n)
  {
    if k != Least(ids) {
      LowestSkipsNone(ids - {Least(ids)}, n - 1, k, l);
    }
  }

  /** One committed drain transaction that claimed the rows `ids`. */
  function DrainBatch(db: Tables, ids: set<nat>): Tables {
    db.(rollup := Upsert(db.rollup, Aggregate(db.outbox, ids)), outbox := SetStatus(db.outbox, ids, Processed))
  }

  /** The reference: add the claimed deltas to the rollup one row at a time, in table order. */
  function AddRows(m: map<Bucket, Columns>, rows: seq<OutboxRow>, ids: set<nat>): map<Bucket, Columns> {
    if |rows| == 0 then m
    else
      var row := rows[|rows| - 1];
      var before := AddRows(m, rows[..|rows| - 1], ids);
      if row.id in ids then before[row.bucket := Get(before, row.bucket).Plus(row.delta)] else before
  }

  /** Group-by and upsert is the same as adding the claimed rows singly. */
  lemma BatchIsFold(rollup: map<Bucket, Columns>, rows: seq<OutboxRow>, ids: set<nat>)
    ensures Upsert(rollup, Aggregate(rows, ids)) == AddRows(rollup, rows, ids)
  {
    var batch, fold := Upsert(rollup, Aggregate(rows, ids)), AddRows(rollup, rows, ids);
    FoldKeys(rollup, rows, ids);
    forall k | k in batch
      ensures batch[k] == fold[k]
    {
      forall m: Measure
        ensures batch[k].At(m) == fold[k].At(m)
      {
        FoldAt(rollup, rows, ids, k, m);
        AggregateAt(rows, ids, k, m);
      }
      SameColumns(batch[k], fold[k]);
    }
  }

  lemma {:induction false} FoldKeys(rollup: map<Bucket, Columns>, rows: seq<OutboxRow>, ids: set<nat>)
    ensures AddRows(rollup, rows, ids).Keys == rollup.Keys + Buckets(rows, ids)
  {
    if |rows| > 0 {
      var n := |rows| - 1;
      FoldKeys(rollup, rows[..n], ids);
      assert rows == rows[..n] + [rows[n]];
    }
  }

  lemma {:induction false} FoldAt(rollup: map<Bucket, Columns>, rows: seq<OutboxRow>, ids: set<nat>, k: Bucket, m: Measure)
    ensures Get(AddRows(rollup, rows, ids), k).At(m) == Get(rollup, k).At(m) + ColumnSum(rows, ids, k, m)
  {
    if |rows| > 0 {
      FoldAt(rollup, rows[..|rows| - 1], ids, k, m);
    }
  }

  lemma {:induction false} NothingClaimed(rows: seq<OutboxRow>, ids: set<nat>, k: Bucket, m: Measure)
    requires k !in Buckets(rows, ids)
    ensures ColumnSum(rows, ids, k, m) == 0
  {
    if |rows| > 0 {
      var n := |rows| - 1;
      assert rows == rows[..n] + [rows[n]];
      NothingClaimed(rows[..n], ids, k, m);
    }
  }

  lemma AggregateAt(rows: seq<OutboxRow>, ids: set<nat>, k: Bucket, m: Measure)
    ensures Get(Aggregate(rows, ids), k).At(m) == ColumnSum(rows, ids, k, m)
  {
    if k !in Buckets(rows, ids) {
      NothingClaimed(rows, ids, k, m);
    }
  }

  lemma {:induction false} ColumnSumDisjoint(rows: seq<OutboxRow>, a: set<nat>, b: set<nat>, k: Bucket, m: Measure)
    requires a !! b
    ensures ColumnSum(rows, a + b, k, m) == ColumnSum(rows, a, k, m) + ColumnSum(rows, b, k, m)
  {
    if |rows| > 0 {
      ColumnSumDisjoint(rows[..|rows| - 1], a, b, k, m);
    }
  }

  // Statuses play no part in the aggregation.
  lemma {:induction false} ColumnSumStatus(
      rows: seq<OutboxRow>, marked: set<nat>, status: OutboxStatus, ids: set<nat>, k: Bucket, m: Measure)
    ensures ColumnSum(SetStatus(rows, marked, status), ids, k, m) == ColumnSum(rows, ids, k, m)
  {
    if |rows| > 0 {
      var n := |rows| - 1;
      assert SetStatus(rows, marked, status)[..n] == SetStatus(rows[..n], marked, status);
      ColumnSumStatus(rows[..n], marked, status, ids, k, m);
    }
  }

  lemma BucketsStatus(rows: seq<OutboxRow>, marked: set<nat>, status: OutboxStatus, ids: set<nat>)
    ensures Buckets(SetStatus(rows, marked, status), ids) == Buckets(rows, ids)
  {
    var after := SetStatus(rows, marked, status);
    forall k | k in Buckets(rows, ids)
      ensures k in Buckets(after, ids)
    {
      var i :| 0 <= i < |rows| && rows[i].id in ids && rows[i].bucket == k;
      assert after[i] in after;
    }
    forall k | k in Buckets(after, ids)
      ensures k in Buckets(rows, ids)
    {
      var i :| 0 <= i < |after| && after[i].id in ids && after[i].bucket == k;
      assert rows[i] in rows;
    }
  }

  lemma BucketsUnion(rows: seq<OutboxRow>, a: set<nat>, b: set<nat>)
    ensures Buckets(rows, a + b) == Buckets(rows, a) + Buckets(rows, b)
  {
  }

  lemma MergedAt(db: Tables, a: set<nat>, b: set<nat>, k: Bucket, m: Measure)
    requires a !! b
    ensures Get(DrainBatch(DrainBatch(db, a), b).rollup, k).At(m) == Get(DrainBatch(db, a + b).rollup, k).At(m)
  {
    ColumnSumStatus(db.outbox, a, Processed, b, k, m);
    ColumnSumDisjoint(db.outbox, a, b, k, m);
    UpsertAt(db.rollup, db.outbox, a, k, m);
    UpsertAt(DrainBatch(db, a).rollup, DrainBatch(db, a).outbox, b, k, m);
    UpsertAt(db.rollup, db.outbox, a + b, k, m);
  }

  lemma UpsertAt(rollup: map<Bucket, Columns>, rows: seq<OutboxRow>, ids: set<nat>, k: Bucket, m: Measure)
    ensures Get(Upsert(rollup, Aggregate(rows, ids)), k).At(m) == Get(rollup, k).At(m) + ColumnSum(rows, ids, k, m)
  {
    AggregateAt(rows, ids, k, m);
  }

  lemma SameRollup(a: map<Bucket, Columns>, b: map<Bucket, Columns>)
    requires a.Keys == b.Keys && forall k: Bucket, m: Measure :: Get(a, k).At(m) == Get(b, k).At(m)
    ensures a == b
  {
    forall k | k in a
      ensures a[k] == b[k]
    {
      forall m: Measure
        ensures a[k].At(m) == b[k].At(m)
      {
        assert Get(a, k).At(m) == Get(b, k).At(m);
      }
      SameColumns(a[k], b[k]);
    }
  }

  lemma MergedKeys(db: Tables, a: set<nat>, b: set<nat>)
    ensures DrainBatch(DrainBatch(db, a), b).rollup.Keys == DrainBatch(db, a + b).rollup.Keys
  {
    BucketsStatus(db.outbox, a, Processed, b);
    BucketsUnion(db.outbox, a, b);
  }

  /** How the pending rows are cut into batches does not matter. */
  lemma BatchesMerge(db: Tables, a: set<nat>, b: set<nat>)
    requires a !! b
    ensures DrainBatch(DrainBatch(db, a), b) == DrainBatch(db, a + b)
  {
    assert DrainBatch(DrainBatch(db, a), b).outbox == DrainBatch(db, a + b).outbox;
    MergedKeys(db, a, b);
    forall k: Bucket, m: Measure
      ensures Get(DrainBatch(DrainBatch(db, a), b).rollup, k).At(m) == Get(DrainBatch(db, a + b).rollup, k).At(m)
    {
      MergedAt(db, a, b, k, m);
    }
    SameRollup(DrainBatch(DrainBatch(db, a), b).rollup, DrainBatch(db, a + b).rollup);
  }
}
