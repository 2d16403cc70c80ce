/** Rollup plus undrained outbox always equals the ledger. */
module Reconciliation {
  import opened Schema
  import opened Wallet
  import opened LedgerLaws
  import opened Rollup

  ghost predicate DistinctIds(rows: seq<OutboxRow>) {
    forall i, j | 0 <= i < j < |rows| :: rows[i].id != rows[j].id
  }

  ghost predicate Absent(rows: seq<OutboxRow>, id: nat) {
    forall i | 0 <= i < |rows| :: rows[i].id != id
  }

  /** The outbox as a whole, drained or not, sums to the report recomputed from the ledger. */
  ghost predicate Reconciled(db: Tables) {
    forall f: iset<Bucket>, m: Measure :: OutboxSum(db.outbox, f, ANY_STATUS, m) == LedgerSum(db.ledger, f, m)
  }

  /** The rollup is the sum of exactly the processed rows, and no committed row is 'processing'. */
  ghost predicate RolledUp(db: Tables) {
    && (forall f: iset<Bucket>, m: Measure :: RollupSum(db.rollup, f, m) == OutboxSum(db.outbox, f, {Processed}, m))
    && (forall i | 0 <= i < |db.outbox| :: db.outbox[i].status != Processing)
  }

  ghost predicate Balanced(db: Tables) {
    DistinctIds(db.outbox) && Reconciled(db) && RolledUp(db)
  }

  ghost predicate FreshOut(db: Tables, s: Stamp) {
    Absent(db.outbox, s.firstOut) && Absent(db.outbox, s.secondOut) && s.firstOut != s.secondOut
  }

  // The sum of a one- or two-row outbox suffix.
  lemma SumOfPosts(rows: seq<OutboxRow>, f: iset<Bucket>, m: Measure)
    requires |rows| <= 2 && forall i | 0 <= i < |rows| :: rows[i].status == Pending
    ensures OutboxSum(rows, f, ANY_STATUS, m)
         == (if |rows| > 0 && rows[0].bucket in f then rows[0].delta.At(m) else 0)
          + (if |rows| > 1 && rows[1].bucket in f then rows[1].delta.At(m) else 0)
    ensures OutboxSum(rows, f, {Processed}, m) == 0
  {
    if |rows| > 0 {
      assert rows[..1][..0] == [];
      assert |rows| == 1 ==> rows[..1] == rows;
    }
  }

  lemma LedgerSumNext(ledger: seq<Entry>, x: Effect, f: iset<Bucket>, m: Measure)
    requires Appends(ledger, x)
    ensures LedgerSum(Marked(ledger, x.mark, x.entry.id) + [x.entry], f, m)
         == LedgerSum(ledger, f, m) + (if BucketOf(x.entry) in f then Contribution(x.entry).At(m) else 0)
          + if x.mark.None? then 0
            else
              var e := ledger[Find(ledger, x.mark.value).value];
              if BucketOf(e) in f then
                Contribution(e.(rolledBackBy := Some(x.entry.id))).At(m) - Contribution(e).At(m)
              else 0
  {
    var marked := Marked(ledger, x.mark, x.entry.id);
    assert (marked + [x.entry])[..|ledger|] == marked;
    if x.mark.Some? {
      var k := Find(ledger, x.mark.value).value;
      LedgerSumUpdate(ledger, k, marked[k], f, m);
    }
  }

  /** The new outbox rows are worth exactly what the ledger changes by. */
  lemma PostsMatchLedger(db: Tables, who: Account, a: Action, s: Stamp, f: iset<Bucket>, m: Measure)
    requires Lawful(db) && Claimable(db, a, s)
    ensures var x := Judge(db, who, a, s);
      LedgerSum(Play(db, x).ledger, f, m) == LedgerSum(db.ledger, f, m) + OutboxSum(x.posts, f, ANY_STATUS, m)
  {
    var x := Judge(db, who, a, s);
    JudgementFits(db, who, a, s);
    LedgerSumNext(db.ledger, x, f, m);
    if x.mark.Some? {
      ReversalIsPosted(db, who, a, s, f, m);
    } else {
      SumOfPosts(x.posts, f, m);
    }
  }

  lemma ReversalIsPosted(db: Tables, who: Account, a: Action, s: Stamp, f: iset<Bucket>, m: Measure)
    requires AllWellShaped(db.ledger) && a.Rollback? && StatusOf(db, a) == Applied
    requires Lookup(db.ledger, a.original).value.rolledBackBy.None?
    ensures var e := Lookup(db.ledger, a.original).value; var x := EntryOf(db, who, a, s);
      OutboxSum(PostsOf(db, who, a, s), f, ANY_STATUS, m)
        == (if BucketOf(x) in f then Contribution(x).At(m) else 0)
         + if BucketOf(e) in f then Contribution(e.(rolledBackBy := Some(a.id))).At(m) - Contribution(e).At(m) else 0
  {
    var e := Lookup(db.ledger, a.original).value;
    assert WellShaped(db.ledger[Find(db.ledger, a.original).value]);
    SumOfPosts(PostsOf(db, who, a, s), f, m);
    RemovalIsTheDifference(e, a.id, m);
  }

  lemma RemovalIsTheDifference(e: Entry, rollback: ActionId, m: Measure)
    requires WellShaped(e) && e.status == Applied && e.rolledBackBy.None?
    ensures Contribution(e.(rolledBackBy := Some(rollback))).At(m) - Contribution(e).At(m)
         == if e.kind == RollbackKind then 0 else RemovedColumns(e.kind, e.amount.value).At(m)
  {
  }

  lemma OutboxNext(db: Tables, who: Account, a: Action, s: Stamp, f: iset<Bucket>, statuses: set<OutboxStatus>, m: Measure)
    ensures OutboxSum(Play(db, Judge(db, who, a, s)).outbox, f, statuses, m)
         == OutboxSum(db.outbox, f, statuses, m) + OutboxSum(PostsOf(db, who, a, s), f, statuses, m)
  {
    OutboxSumAppend(db.outbox, PostsOf(db, who, a, s), f, statuses, m);
  }

  lemma PlayKeepsReconciled(db: Tables, who: Account, a: Action, s: Stamp)
    requires Lawful(db) && Claimable(db, a, s) && Reconciled(db)
    ensures Reconciled(Play(db, Judge(db, who, a, s)))
  {
    forall f: iset<Bucket>, m: Measure
      ensures OutboxSum(Play(db, Judge(db, who, a, s)).outbox, f, ANY_STATUS, m)
           == LedgerSum(Play(db, Judge(db, who, a, s)).ledger, f, m)
    {
      OutboxNext(db, who, a, s, f, ANY_STATUS, m);
      PostsMatchLedger(db, who, a, s, f, m);
    }
  }

  lemma PlayKeepsBalanced(db: Tables, who: Account, a: Action, s: Stamp)
    requires Lawful(db) && Claimable(db, a, s) && Balanced(db) && FreshOut(db, s)
    ensures Balanced(Play(db, Judge(db, who, a, s)))
  {
    PlayKeepsReconciled(db, who, a, s);
    DistinctNext(db, who, a, s);
    forall f: iset<Bucket>, m: Measure
      ensures OutboxSum(Play(db, Judge(db, who, a, s)).outbox, f, {Processed}, m) == OutboxSum(db.outbox, f, {Processed}, m)
    {
      OutboxNext(db, who, a, s, f, {Processed}, m);
      SumOfPosts(PostsOf(db, who, a, s), f, m);
    }
  }

  lemma DistinctNext(db: Tables, who: Account, a: Action, s: Stamp)
    requires DistinctIds(db.outbox) && FreshOut(db, s)
    requires forall i | 0 <= i < |db.outbox| :: db.outbox[i].status != Processing
    ensures var rows := Play(db, Judge(db, who, a, s)).outbox;
      DistinctIds(rows) && forall i | 0 <= i < |rows| :: rows[i].status != Processing
  {
    var posts := PostsOf(db, who, a, s);
    assert |posts| <= 2 && (|posts| > 0 ==> posts[0].id == s.firstOut) && (|posts| > 1 ==> posts[1].id == s.secondOut);
  }

  /** A batch claims existing rows, and pending ones only. */
  ghost predicate Drainable(db: Tables, ids: set<nat>) {
    ids <= PendingIds(db.outbox)
    && forall i | 0 <= i < |db.outbox| && db.outbox[i].id in ids :: db.outbox[i].status == Pending
  }

  lemma PendingAreDrainable(db: Tables, ids: set<nat>)
    requires DistinctIds(db.outbox) && ids <= PendingIds(db.outbox)
    ensures Drainable(db, ids)
  {
    forall i | 0 <= i < |db.outbox| && db.outbox[i].id in ids
      ensures db.outbox[i].status == Pending
    {
      var row :| row in db.outbox && row.status == Pending && row.id == db.outbox[i].id;
      var j :| 0 <= j < |db.outbox| && db.outbox[j] == row;
    }
  }

  lemma EveryStatus(s: OutboxStatus)
    ensures s in ANY_STATUS
  {
    match s
    case Pending =>
    case Processing =>
    case Processed =>
  }

  lemma {:induction false} StatusChangeKeepsTotal(rows: seq<OutboxRow>, ids: set<nat>, f: iset<Bucket>, m: Measure)
    ensures OutboxSum(SetStatus(rows, ids, Processed), f, ANY_STATUS, m) == OutboxSum(rows, f, ANY_STATUS, m)
  {
    if |rows| > 0 {
      var n := |rows| - 1;
      assert SetStatus(rows, ids, Processed)[..n] == SetStatus(rows[..n], ids, Processed);
      EveryStatus(rows[n].status);
      EveryStatus(Processed);
      StatusChangeKeepsTotal(rows[..n], ids, f, m);
    }
  }

  // What the fold adds to the rollup is what the status change adds to the processed rows.
  lemma {:induction false} FoldFollowsStatus(
      rollup: map<Bucket, Columns>, rows: seq<OutboxRow>, ids: set<nat>, f: iset<Bucket>, m: Measure)
    requires forall i | 0 <= i < |rows| && rows[i].id in ids :: rows[i].status == Pending
    ensures RollupSum(AddRows(rollup, rows, ids), f, m) + OutboxSum(rows, f, {Processed}, m)
         == RollupSum(rollup, f, m) + OutboxSum(SetStatus(rows, ids, Processed), f, {Processed}, m)
  {
    if |rows| > 0 {
      var n := |rows| - 1;
      var row := rows[n];
      assert SetStatus(rows, ids, Processed)[..n] == SetStatus(rows[..n], ids, Processed);
      FoldFollowsStatus(rollup, rows[..n], ids, f, m);
      var before := AddRows(rollup, rows[..n], ids);
      RollupSumPut(before, row.bucket, Get(before, row.bucket).Plus(row.delta), f, m);
    }
  }

  lemma DrainKeepsBalanced(db: Tables, ids: set<nat>)
    requires Balanced(db) && Drainable(db, ids)
    ensures Balanced(DrainBatch(db, ids))
  {
    var next := DrainBatch(db, ids);
    BatchIsFold(db.rollup, db.outbox, ids);
    forall f: iset<Bucket>, m: Measure
      ensures OutboxSum(next.outbox, f, ANY_STATUS, m) == LedgerSum(next.ledger, f, m)
      ensures RollupSum(next.rollup, f, m) == OutboxSum(next.outbox, f, {Processed}, m)
    {
      StatusChangeKeepsTotal(db.outbox, ids, f, m);
      FoldFollowsStatus(db.rollup, db.outbox, ids, f, m);
    }
  }

  /** Measure `m` over the buckets `f`, as far as it is rolled up or still waiting in the outbox. */
  ghost function Reported(db: Tables, f: iset<Bucket>, m: Measure): int {
    RollupSum(db.rollup, f, m) + OutboxSum(db.outbox, f, {Pending}, m)
  }

  /** Per-bucket reconciliation, for any set of buckets: rollup plus undrained outbox is the ledger's report. */
  lemma RollupPlusUndrained(db: Tables, f: iset<Bucket>, m: Measure)
    requires Balanced(db)
    ensures Reported(db, f, m) == LedgerSum(db.ledger, f, m)
  {
    SplitByStatus(db.outbox, f, m);
  }

  lemma {:induction false} SplitByStatus(rows: seq<OutboxRow>, f: iset<Bucket>, m: Measure)
    requires forall i | 0 <= i < |rows| :: rows[i].status != Processing
    ensures OutboxSum(rows, f, ANY_STATUS, m) == OutboxSum(rows, f, {Processed}, m) + OutboxSum(rows, f, {Pending}, m)
  {
    if |rows| > 0 {
      SplitByStatus(rows[..|rows| - 1], f, m);
    }
  }
}
