/** With two drain workers a rollup column can be negative for a while, so one is the most that keeps them all
    non-negative. */
module TwoWorkers {
  import opened Schema
  import opened Wallet
  import opened Rollup
  import opened Reconciliation
  import opened Runs
  import opened Services
  import opened Agreement
  import opened Concurrent
  import opened SingleWorker
  import opened Reached
  import opened Paths

  lemma Proceeds(owner: Owner, n: nat, from: System, sys: System, a: Move)
    requires Reaches(WorkersMove(owner, n), from, sys) && Enabled(sys, a) && Deployed(owner, n, sys, a)
    ensures Reaches(WorkersMove(owner, n), from, Next(sys, a))
  {
    assert WorkersMove(owner, n)(sys, a, Next(sys, a));
    Goes(WorkersMove(owner, n), from, sys, a);
  }

  lemma WorkersServe(owner: Owner, n: nat)
    ensures Serving(WorkersMove(owner, n))
  {
    forall sys, a | Enabled(sys, a) && (a.Decide? || a.Act? || a.Commit?)
      ensures WorkersMove(owner, n)(sys, a, Next(sys, a))
    {
      assert MovesTo(sys, a, Next(sys, a)) && Deployed(owner, n, sys, a);
    }
  }

  /** What a bet and its rollback leave in the outbox. */
  function BetAndRemoval(who: Account, amount: int): seq<OutboxRow> {
    [OutboxRow(1, Bucket(0, who), AppliedColumns(BetKind, amount), Pending),
     OutboxRow(3, Bucket(0, who), RemovedColumns(BetKind, amount), Pending),
     OutboxRow(4, Bucket(0, who), ONE_ROLLBACK, Pending)]
  }

  lemma BetIsPosted(db: Tables, who: Account, amount: int, opening: int)
    requires 0 < amount <= opening && ChainSoFar(db, who, amount, opening, 0)
    ensures var o := ChainOrder(amount, 0); PostsOf(db, who, o.action, o.stamp) == BetAndRemoval(who, amount)[..1]
  {
    ChainStatus(db, who, amount, opening, 0);
  }

  lemma RemovalIsPosted(db: Tables, who: Account, amount: int, opening: int)
    requires 0 < amount <= opening && ChainSoFar(db, who, amount, opening, 1)
    ensures var o := ChainOrder(amount, 1); PostsOf(db, who, o.action, o.stamp) == BetAndRemoval(who, amount)[1..]
  {
    ChainTarget(db, who, amount, opening, 1);
    ChainStatus(db, who, amount, opening, 1);
  }

  lemma OutboxAfter(db: Tables, who: Account, o: Order)
    requires o.action.id !in db.registry && Apply(db, who, o).Done?
    ensures var next := Apply(db, who, o).db;
      next.outbox == db.outbox + PostsOf(db, who, o.action, o.stamp) && next.rollup == db.rollup
  {
  }

  lemma OutboxOfTwo(db: Tables, who: Account, orders: seq<Order>, one: Tables)
    requires |orders| == 2 && orders[0].action.id !in db.registry
    requires Apply(db, who, orders[0]).Done? && Apply(db, who, orders[0]).db == one
    requires orders[1].action.id !in one.registry && Apply(one, who, orders[1]).Done?
    ensures var r := ApplyAll(db, who, orders);
      r.Done? && r.db.rollup == db.rollup
      && r.db.outbox == db.outbox + PostsOf(db, who, orders[0].action, orders[0].stamp)
                                  + PostsOf(one, who, orders[1].action, orders[1].stamp)
  {
    assert orders[..0] == [] && orders[..2] == orders;
    NextApply(db, who, orders, 0, db, []);
    NextApply(db, who, orders, 1, one, Apply(db, who, orders[0]).replies);
    OutboxAfter(db, who, orders[0]);
    OutboxAfter(one, who, orders[1]);
  }

  lemma BetAndRollbackOutbox(db: Tables, who: Account, amount: int, orders: seq<Order>)
    requires who in db.accounts && 0 < amount <= db.accounts[who] && ChainSoFar(db, who, amount, db.accounts[who], 0)
    requires db.outbox == [] && |orders| == 2 && orders[0] == ChainOrder(amount, 0) && orders[1] == ChainOrder(amount, 1)
    ensures var r := ApplyAll(db, who, orders);
      r.Done? && r.db.rollup == db.rollup && r.db.outbox == BetAndRemoval(who, amount)
  {
    var opening := db.accounts[who];
    ChainStep(db, who, amount, opening, 0);
    ChainVerdict(db, who, amount, opening, 0);
    BetIsPosted(db, who, amount, opening);
    var one := Apply(db, who, orders[0]).db;
    ChainStep(one, who, amount, opening, 1);
    ChainVerdict(one, who, amount, opening, 1);
    RemovalIsPosted(one, who, amount, opening);
    OutboxOfTwo(db, who, orders, one);
    var rows := BetAndRemoval(who, amount);
    assert [] + rows[..1] + rows[1..] == rows;
  }

  lemma {:induction false} ColumnSumOfOne(rows: seq<OutboxRow>, i: nat, m: Measure)
    requires DistinctIds(rows) && i < |rows|
    ensures ColumnSum(rows, {rows[i].id}, rows[i].bucket, m) == rows[i].delta.At(m)
  {
    var n := |rows| - 1;
    if i == n {
      assert forall j | 0 <= j < n :: rows[j].id !in {rows[i].id};
      NothingClaimed(rows[..n], {rows[i].id}, rows[i].bucket, m);
    } else {
      ColumnSumOfOne(rows[..n], i, m);
    }
  }

  lemma LowestOfOne(ids: set<nat>, k: nat)
    requires IsLeast(ids, k)
    ensures Lowest(ids, 1) == {k}
  {
    assert Least(ids) == k;
    assert Lowest(ids - {k}, 0) == {};
  }

  lemma PendingOfThree(who: Account, amount: int)
    ensures PendingIds(BetAndRemoval(who, amount)) == {1, 3, 4}
    ensures Buckets(BetAndRemoval(who, amount), {3}) == {Bucket(0, who)}
  {
    var rows := BetAndRemoval(who, amount);
    assert rows[0] in rows && rows[1] in rows && rows[2] in rows;
  }

  /** The first worker takes the addition. */
  lemma FirstClaims(sys: System, who: Account, amount: int)
    requires sys.committed.outbox == BetAndRemoval(who, amount) && sys.workers == map[]
    ensures SkipsLocked(sys, {1})
  {
    PendingOfThree(who, amount);
    assert {1, 3, 4} - Held(sys.workers) == {1, 3, 4} && IsLeast({1, 3, 4}, 1);
    LowestOfOne({1, 3, 4}, 1);
  }

  lemma HeldByFirst(workers: map<nat, Worker>)
    requires workers == map[0 := Worker({1}, map[])]
    ensures Held(workers) == {1}
  {
    assert 0 in workers && workers[0].ids == {1};
  }

  /** The second one, which skips it, takes the removal. */
  lemma SecondClaims(sys: System, who: Account, amount: int)
    requires sys.committed.outbox == BetAndRemoval(who, amount) && sys.workers == map[0 := Worker({1}, map[])]
    ensures SkipsLocked(sys, {3})
  {
    PendingOfThree(who, amount);
    HeldByFirst(sys.workers);
    assert {1, 3, 4} - {1} == {3, 4} && IsLeast({3, 4}, 3);
    LowestOfOne({3, 4}, 3);
  }

  lemma BothClaim(owner: Owner, from: System, sys: System, who: Account, amount: int)
    requires Reaches(WorkersMove(owner, 2), from, sys) && sys.workers == map[]
    requires sys.committed.outbox == BetAndRemoval(who, amount)
    ensures Reaches(WorkersMove(owner, 2), from, sys.(workers := map[0 := Worker({1}, map[]), 1 := Worker({3}, map[])]))
  {
    var first, second := Worker({1}, map[]), Worker({3}, map[]);
    var a := sys.(workers := map[0 := first]);
    PendingOfThree(who, amount);
    FirstClaims(sys, who, amount);
    SecondClaims(a, who, amount);
    Proceeds(owner, 2, from, sys, Claim(0, {1}));
    assert sys.workers[0 := first] == map[0 := first];
    assert |a.workers.Keys| == 1;
    Proceeds(owner, 2, from, a, Claim(1, {3}));
    assert a.workers[1 := second] == map[0 := first, 1 := second];
  }

  lemma SecondPuts(owner: Owner, from: System, sys: System, who: Account, amount: int)
    requires Reaches(WorkersMove(owner, 2), from, sys) && sys.committed.outbox == BetAndRemoval(who, amount)
    requires sys.workers == map[0 := Worker({1}, map[]), 1 := Worker({3}, map[])]
    ensures var second := Put(sys.committed, Worker({3}, map[]), Bucket(0, who));
      Reaches(WorkersMove(owner, 2), from, sys.(workers := map[0 := Worker({1}, map[]), 1 := second]))
  {
    PendingOfThree(who, amount);
    var second := Put(sys.committed, Worker({3}, map[]), Bucket(0, who));
    assert sys.workers[0].puts == map[] && sys.workers[1] == Worker({3}, map[]);
    Proceeds(owner, 2, from, sys, PutRollup(1, Bucket(0, who)));
    assert sys.workers[1 := second] == map[0 := Worker({1}, map[]), 1 := second];
  }

  lemma SecondFinishes(owner: Owner, from: System, sys: System, who: Account, amount: int)
    requires Reaches(WorkersMove(owner, 2), from, sys) && sys.committed.outbox == BetAndRemoval(who, amount)
    requires 1 in sys.workers && sys.workers[1] == Put(sys.committed, Worker({3}, map[]), Bucket(0, who))
    ensures exists end :: Reaches(WorkersMove(owner, 2), from, end) && end.committed == Finished(sys.committed, sys.workers[1])
  {
    PendingOfThree(who, amount);
    assert sys.workers[1].puts.Keys == {Bucket(0, who)};
    Proceeds(owner, 2, from, sys, Finish(1));
    assert Next(sys, Finish(1)).committed == Finished(sys.committed, sys.workers[1]);
  }

  lemma RemovalAloneIsNegative(db: Tables, who: Account, amount: int)
    requires db.outbox == BetAndRemoval(who, amount) && db.rollup == map[]
    ensures var w := Put(db, Worker({3}, map[]), Bucket(0, who));
      Get(Finished(db, w).rollup, Bucket(0, who)).At(TotalBet) == -amount
  {
    ColumnSumOfOne(db.outbox, 1, TotalBet);
  }

  /** The second worker is done before the first one has written anything. */
  lemma SecondWorkerFirst(owner: Owner, from: System, sys: System, who: Account, amount: int)
    requires Reaches(WorkersMove(owner, 2), from, sys) && sys.workers == map[]
    requires sys.committed.outbox == BetAndRemoval(who, amount) && sys.committed.rollup == map[]
    ensures exists end :: Reaches(WorkersMove(owner, 2), from, end) && Get(end.committed.rollup, Bucket(0, who)).At(TotalBet) == -amount
  {
    var first, second := Worker({1}, map[]), Worker({3}, map[]);
    var put := Put(sys.committed, second, Bucket(0, who));
    BothClaim(owner, from, sys, who, amount);
    SecondPuts(owner, from, sys.(workers := map[0 := first, 1 := second]), who, amount);
    SecondFinishes(owner, from, sys.(workers := map[0 := first, 1 := put]), who, amount);
    RemovalAloneIsNegative(sys.committed, who, amount);
  }

  lemma ChainArrives(db: Tables, who: Account, amount: int, sys: System)
    requires db.registry == map[] && db.outbox == [] && amount > 0
    requires sys == Start({TypeScript}, db)
    ensures Arrives(sys, TypeScript, who, ChainOrders(amount, 2)) && Draws(db.outbox, who, ChainOrders(amount, 2))
  {
    var orders := ChainOrders(amount, 2);
    assert FreshOrders(db, orders) && Validated(orders) && Clocked(TypeScript, orders);
  }

  /** The bound of one worker is the exact one: with a second, whose claim skips what the first holds, there
      are a start and a behavior that end with a negative column, until the first worker is done too. */
  lemma TwoWorkersGoNegative(db: Tables, who: Account, amount: int)
    requires db == Tables(db.accounts, map[], [], map[], [], map[]) && who in db.accounts && 0 < amount <= db.accounts[who]
    requires forall a | a in db.accounts :: db.accounts[a] >= 0
    ensures var start := Start({TypeScript}, db); var owner: Owner := _ => who;
      Starts({TypeScript}, db, start) && OwnedLedger(owner, db.ledger)
      && exists end :: Reaches(WorkersMove(owner, 2), start, end) && Get(end.committed.rollup, Bucket(0, who)).At(TotalBet) == -amount
  {
    var start := Start({TypeScript}, db);
    var owner: Owner := _ => who;
    var orders := ChainOrders(amount, 2);
    SeededIsGood(db);
    assert Open(db, who) == db;
    BetAndRollbackOutbox(db, who, amount, orders);
    Stays(WorkersMove(owner, 2), start);
    ChainArrives(db, who, amount, start);
    assert AllOwned(owner, who, orders);
    LockMoves(start, TypeScript, who, orders);
    WorkersServe(owner, 2);
    ServedIsReached(WorkersMove(owner, 2), start, start, TypeScript, who, orders);
    SecondWorkerFirst(
      owner, start, start.(committed := Serve(db, who, orders).db, history := start.history + [Request(who, orders)]), who, amount);
  }
}
