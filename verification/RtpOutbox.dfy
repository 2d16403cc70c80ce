/** `src/reports/rtp-outbox.ts` over the database object. */
module RtpOutbox {
  import opened Schema
  import opened Rollup
  import opened Reconciliation
  import opened Store

  lemma EmptyBatch(db: Tables)
    ensures DrainBatch(db, {}) == db
  {
    assert Aggregate(db.outbox, {}) == map[];
    forall k | k in db.rollup
      ensures db.rollup[k].Plus(ZERO) == db.rollup[k]
    {
      PlusZero(db.rollup[k]);
    }
    assert Upsert(db.rollup, map[]) == db.rollup;
    assert SetStatus(db.outbox, {}, Processed) == db.outbox;
  }

  // The intermediate status 'processing' leaves no trace in what is committed.
  lemma ClaimedThenProcessed(db: Tables, ids: set<nat>)
    ensures var claimed := SetStatus(db.outbox, ids, Processing);
      && SetStatus(claimed, ids, Processed) == SetStatus(db.outbox, ids, Processed)
      && Upsert(db.rollup, Aggregate(claimed, ids)) == Upsert(db.rollup, Aggregate(db.outbox, ids))
  {
    var claimed := SetStatus(db.outbox, ids, Processing);
    BucketsStatus(db.outbox, ids, Processing, ids);
    forall k: Bucket, m: Measure
      ensures Get(Aggregate(claimed, ids), k).At(m) == Get(Aggregate(db.outbox, ids), k).At(m)
    {
      ColumnSumStatus(db.outbox, ids, Processing, ids, k, m);
      AggregateAt(claimed, ids, k, m);
      AggregateAt(db.outbox, ids, k, m);
    }
    SameRollup(Aggregate(claimed, ids), Aggregate(db.outbox, ids));
  }

  lemma PendingAfter(rows: seq<OutboxRow>, ids: set<nat>)
    ensures PendingIds(SetStatus(rows, ids, Processed)) == PendingIds(rows) - ids
  {
    var after := SetStatus(rows, ids, Processed);
    forall id | id in PendingIds(after)
      ensures id in PendingIds(rows) - ids
    {
      var i :| 0 <= i < |after| && after[i].id == id && after[i].status == Pending;
      assert rows[i] in rows;
    }
    forall id | id in PendingIds(rows) - ids
      ensures id in PendingIds(after)
    {
      var i :| 0 <= i < |rows| && rows[i].id == id && rows[i].status == Pending;
      assert after[i] in after;
    }
  }

  /** One batch commits exactly the rollup of the lowest pending ids that no other session holds, and says
      how many they were. */
  method DrainRtpOutbox(db: Database, batchSize: nat, locked: set<nat>) returns (drained: nat)
    modifies db
    ensures var ids := Lowest(PendingIds(old(db.outbox)) - locked, batchSize);
      drained == |ids| && db.Snapshot() == DrainBatch(old(db.Snapshot()), ids)
  {
    db.Begin();
    var ids := db.ClaimPending(batchSize, locked);
    ClaimedThenProcessed(old(db.Snapshot()), ids);
    if |ids| == 0 {
      EmptyBatch(old(db.Snapshot()));
      return 0;
    }
    db.UpsertRollup(ids);
    db.MarkProcessed(ids);
    return |ids|;
  }

  // `done` are the rows drained so far, none of them in `locked`.
  ghost predicate Drained(before: Tables, now: Tables, locked: set<nat>, done: set<nat>) {
    && now == DrainBatch(before, done)
    && done <= PendingIds(before.outbox) - locked && PendingIds(now.outbox) == PendingIds(before.outbox) - done
  }

  lemma DrainedMore(before: Tables, now: Tables, locked: set<nat>, done: set<nat>, ids: set<nat>)
    requires Drained(before, now, locked, done) && ids <= PendingIds(now.outbox) - locked
    ensures Drained(before, DrainBatch(now, ids), locked, done + ids) && |done + ids| == |done| + |ids|
    ensures |PendingIds(DrainBatch(now, ids).outbox)| == |PendingIds(now.outbox)| - |ids|
  {
    BatchesMerge(before, done, ids);
    PendingAfter(now.outbox, ids);
    assert done !! ids;
    assert PendingIds(now.outbox) == (PendingIds(now.outbox) - ids) + ids;
  }

  lemma Exhausted(before: Tables, now: Tables, locked: set<nat>, done: set<nat>)
    requires Drained(before, now, locked, done) && PendingIds(now.outbox) - locked == {}
    ensures done == PendingIds(before.outbox) - locked
  {
    var all := PendingIds(before.outbox) - locked;
    assert all - done == {} by {
      assert all - done == PendingIds(now.outbox) - locked;
    }
    assert forall id | id in all && id !in done :: id in all - done;
  }

  lemma NothingDone(db: Tables, locked: set<nat>)
    ensures Drained(db, db, locked, {})
  {
    EmptyBatch(db);
  }

  /** With nothing enqueued meanwhile, and other sessions holding on to the rows in `locked`, this terminates
      and returns the number of the other rows initially pending, and for every positive batch size it leaves
      the rollup that one big batch of them would have left. */
  method DrainRtpOutboxUntilEmpty(db: Database, batchSize: nat, locked: set<nat>) returns (total: nat)
    modifies db
    ensures var free := if batchSize > 0 then PendingIds(old(db.outbox)) - locked else {};
      total == |free| && db.Snapshot() == DrainBatch(old(db.Snapshot()), free)
      && PendingIds(db.outbox) == PendingIds(old(db.outbox)) - free
  {
    total := 0;
    ghost var before := db.Snapshot();
    ghost var done: set<nat> := {};
    NothingDone(before, locked);
    while true
      invariant Drained(before, db.Snapshot(), locked, done)
      invariant total == |done|
      invariant batchSize == 0 ==> done == {}
      decreases |PendingIds(db.outbox)|
    {
      ghost var ids := Lowest(PendingIds(db.outbox) - locked, batchSize);
      DrainedMore(before, db.Snapshot(), locked, done, ids);
      var drained := DrainRtpOutbox(db, batchSize, locked);
      total := total + drained;
      done := done + ids;
      if drained == 0 {
        if batchSize > 0 {
          Exhausted(before, db.Snapshot(), locked, done);
        }
        return total;
      }
    }
  }

  lemma NoStaleRows(db: Tables)
    requires Balanced(db)
    ensures ProcessingIds(db.outbox) == {}
  {
    forall row | row in db.outbox
      ensures row.status != Processing
    {
      var i :| 0 <= i < |db.outbox| && db.outbox[i] == row;
    }
  }

  /** Recovery of stale rows always finds none: no committed row is ever 'processing'. */
  method RecoverStaleRtpOutbox(db: Database, stale: set<nat>) returns (count: nat)
    requires Balanced(db.Snapshot())
    modifies db`outbox
    ensures count == 0 && db.Snapshot() == old(db.Snapshot())
  {
    NoStaleRows(db.Snapshot());
    count := db.ResetProcessing(stale);
    assert SetStatus(old(db.outbox), {}, Pending) == old(db.outbox);
  }
}
