/** With a single drain worker that takes pending rows in id order, no rollup column is ever negative. */
module SingleWorker {
  import opened Schema
  import opened Wallet
  import opened LedgerLaws
  import opened Rollup
  import opened Reconciliation
  import opened Runs
  import opened Reports
  import opened History
  import opened Services
  import opened Transactions
  import opened Concurrent
  import opened Paths

  /** The rows of one account were enqueued in the order of their ids. */
  ghost predicate AccountOrdered(rows: seq<OutboxRow>) {
    forall i, j | 0 <= i < j < |rows| && rows[i].bucket.account == rows[j].bucket.account :: rows[i].id < rows[j].id
  }

  /** Within an account, rows are processed first come, first served. */
  ghost predicate ProcessedInOrder(rows: seq<OutboxRow>) {
    forall i, j | 0 <= i < j < |rows| && rows[i].bucket.account == rows[j].bucket.account && rows[j].status == Processed ::
      rows[i].status == Processed
  }

  /** Wherever one stops adding the outbox up, no column is negative. */
  ghost predicate NeverNegative(rows: seq<OutboxRow>) {
    forall n: nat, f: iset<Bucket>, m: Measure | n <= |rows| :: OutboxSum(rows[..n], f, ANY_STATUS, m) >= 0
  }

  lemma {:induction false} LedgerSumNonNegative(ledger: seq<Entry>, f: iset<Bucket>, m: Measure)
    requires AllWellShaped(ledger)
    ensures LedgerSum(ledger, f, m) >= 0
  {
    if |ledger| > 0 {
      LedgerSumNonNegative(ledger[..|ledger| - 1], f, m);
      assert WellShaped(ledger[|ledger| - 1]);
    }
  }

  // Of the two rows of a reversal the count comes last, and it is itself non-negative.
  lemma PlayNeverNegative(db: Tables, who: Account, a: Action, s: Stamp)
    requires Good(db) && Claimable(db, a, s) && FreshOut(db, s) && Judge(db, who, a, s).balance >= 0
    requires NeverNegative(db.outbox)
    ensures NeverNegative(Play(db, Judge(db, who, a, s)).outbox)
  {
    var posts := PostsOf(db, who, a, s);
    var next := Play(db, Judge(db, who, a, s));
    ActionKeepsLaws(db, who, a, s);
    PlayKeepsBalanced(db, who, a, s);
    var rows := next.outbox;
    forall n: nat, f: iset<Bucket>, m: Measure | n <= |rows|
      ensures OutboxSum(rows[..n], f, ANY_STATUS, m) >= 0
    {
      if n <= |db.outbox| {
        assert rows[..n] == db.outbox[..n];
      } else if n == |rows| {
        assert rows[..n] == rows;
        LedgerSumNonNegative(next.ledger, f, m);
      } else {
        RemovalAlone(db, who, a, s, f, m);
        assert rows[..n] == db.outbox + [posts[0]];
      }
    }
  }

  lemma RemovalAlone(db: Tables, who: Account, a: Action, s: Stamp, f: iset<Bucket>, m: Measure)
    requires Good(db) && Claimable(db, a, s) && |PostsOf(db, who, a, s)| == 2
    ensures OutboxSum(db.outbox + [PostsOf(db, who, a, s)[0]], f, ANY_STATUS, m) >= 0
  {
    var x := Judge(db, who, a, s);
    JudgementFits(db, who, a, s);
    var k := Find(db.ledger, a.original).value;
    var marked := db.ledger[k].(rolledBackBy := Some(a.id));
    LedgerSumUpdate(db.ledger, k, marked, f, m);
    KeepsShape(db, x);
    assert WellShaped(db.ledger[k]);
    RemovalIsTheDifference(db.ledger[k], a.id, m);
    assert AllWellShaped(db.ledger[k := marked]);
    LedgerSumNonNegative(db.ledger[k := marked], f, m);
    OutboxSumAppend(db.outbox, [x.posts[0]], f, ANY_STATUS, m);
    SumOfPosts([x.posts[0]], f, m);
  }

  lemma {:induction false} ApplyAllNeverNegative(db: Tables, who: Account, orders: seq<Order>)
    requires Good(db) && FreshOrders(db, orders) && Admissible(db, who, orders) && ApplyAll(db, who, orders).Done?
    requires NeverNegative(db.outbox)
    ensures NeverNegative(ApplyAll(db, who, orders).db.outbox)
  {
    if |orders| > 0 {
      var n := |orders| - 1;
      BeforeLast(db, who, orders);
      ApplyAllNeverNegative(db, who, orders[..n]);
      var mid := ApplyAll(db, who, orders[..n]).db;
      if orders[n].action.id !in mid.registry {
        PlayNeverNegative(mid, who, orders[n].action, orders[n].stamp);
      }
    }
  }

  lemma {:induction false} StatusKeepsNeverNegative(rows: seq<OutboxRow>, ids: set<nat>)
    requires NeverNegative(rows)
    ensures NeverNegative(SetStatus(rows, ids, Processed))
  {
    var after := SetStatus(rows, ids, Processed);
    forall n: nat, f: iset<Bucket>, m: Measure | n <= |after|
      ensures OutboxSum(after[..n], f, ANY_STATUS, m) >= 0
    {
      assert after[..n] == SetStatus(rows[..n], ids, Processed);
      StatusChangeKeepsTotal(rows[..n], ids, f, m);
    }
  }

  /** Which account uses an action id, and rolls it back. */
  type Owner = ActionId -> Account

  ghost predicate Owned(owner: Owner, who: Account, a: Action) {
    owner(a.id) == who && (a.Rollback? ==> owner(a.original) == who)
  }

  ghost predicate AllOwned(owner: Owner, who: Account, orders: seq<Order>) {
    forall i | 0 <= i < |orders| :: Owned(owner, who, orders[i].action)
  }

  /** Every ledger row belongs to the owner of its id. */
  ghost predicate OwnedLedger(owner: Owner, ledger: seq<Entry>) {
    forall i {:trigger ledger[i].account} | 0 <= i < |ledger| :: ledger[i].account == owner(ledger[i].id)
  }

  ghost predicate Below(rows: seq<OutboxRow>, who: Account, bound: nat) {
    forall i | 0 <= i < |rows| && rows[i].bucket.account == who :: rows[i].id < bound
  }

  /** What a sequence gives to a transaction that holds the account lock: draws that rise, and lie above all
      that was drawn for the account before. Draws for other accounts may lie anywhere in between. */
  ghost predicate Draws(rows: seq<OutboxRow>, who: Account, orders: seq<Order>) {
    && (forall i | 0 <= i < |orders| :: orders[i].stamp.firstOut < orders[i].stamp.secondOut)
    && (forall i, j | 0 <= i < j < |orders| :: orders[i].stamp.secondOut < orders[j].stamp.firstOut)
    && (forall i | 0 <= i < |orders| :: Below(rows, who, orders[i].stamp.firstOut))
  }

  // The rows an owned action posts are its account's, in the order of their draws.
  lemma PostsOfOwner(owner: Owner, db: Tables, who: Account, a: Action, s: Stamp)
    requires OwnedLedger(owner, db.ledger) && Owned(owner, who, a)
    ensures var posts := PostsOf(db, who, a, s);
      && |posts| <= 2 && (forall i | 0 <= i < |posts| :: posts[i].bucket.account == who)
      && (|posts| > 0 ==> posts[0].id == s.firstOut) && (|posts| > 1 ==> posts[1].id == s.secondOut)
  {
    if a.Rollback? && Find(db.ledger, a.original).Some? {
      assert db.ledger[Find(db.ledger, a.original).value].account == owner(a.original);
    }
  }

  lemma AppendInOrder(rows: seq<OutboxRow>, posts: seq<OutboxRow>, who: Account, s: Stamp)
    requires AccountOrdered(rows) && Below(rows, who, s.firstOut) && s.firstOut < s.secondOut
    requires |posts| <= 2 && (forall i | 0 <= i < |posts| :: posts[i].bucket.account == who)
    requires (|posts| > 0 ==> posts[0].id == s.firstOut) && (|posts| > 1 ==> posts[1].id == s.secondOut)
    ensures AccountOrdered(rows + posts) && Below(rows + posts, who, s.secondOut + 1)
  {
  }

  lemma ApplyInOrder(owner: Owner, db: Tables, who: Account, o: Order)
    requires OwnedLedger(owner, db.ledger) && AccountOrdered(db.outbox) && UniqueIds(db.ledger)
    requires Owned(owner, who, o.action) && o.stamp.firstOut < o.stamp.secondOut && Below(db.outbox, who, o.stamp.firstOut)
    requires Apply(db, who, o).Done?
    ensures var next := Apply(db, who, o).db;
      OwnedLedger(owner, next.ledger) && AccountOrdered(next.outbox) && Below(next.outbox, who, o.stamp.secondOut + 1)
  {
    if o.action.id !in db.registry {
      var x := Judge(db, who, o.action, o.stamp);
      PostsOfOwner(owner, db, who, o.action, o.stamp);
      AppendInOrder(db.outbox, x.posts, who, o.stamp);
      MarkedRows(db.ledger, x.mark, x.entry.id, x.entry);
      OwnedNext(owner, db, who, x);
    }
  }

  lemma OwnedNext(owner: Owner, db: Tables, who: Account, x: Effect)
    requires OwnedLedger(owner, db.ledger) && UniqueIds(db.ledger) && x.entry.account == owner(x.entry.id)
    ensures OwnedLedger(owner, Play(db, x).ledger)
  {
    var next := Play(db, x).ledger;
    MarkedRows(db.ledger, x.mark, x.entry.id, x.entry);
    forall i | 0 <= i < |next|
      ensures next[i].account == owner(next[i].id)
    {
      assert i < |db.ledger| ==> db.ledger[i].account == owner(db.ledger[i].id);
    }
  }

  lemma BelowMore(rows: seq<OutboxRow>, who: Account, bound: nat, higher: nat)
    requires Below(rows, who, bound) && bound <= higher
    ensures Below(rows, who, higher)
  {
  }

  /** Lock and ownership together: what a request appends is in order, account by account. */
  lemma {:induction false} ApplyAllInOrder(owner: Owner, db: Tables, who: Account, orders: seq<Order>)
    requires Good(db) && FreshOrders(db, orders) && Admissible(db, who, orders) && ApplyAll(db, who, orders).Done?
    requires OwnedLedger(owner, db.ledger) && AccountOrdered(db.outbox)
    requires AllOwned(owner, who, orders) && Draws(db.outbox, who, orders)
    ensures var end := ApplyAll(db, who, orders).db;
      && OwnedLedger(owner, end.ledger) && AccountOrdered(end.outbox)
      && (|orders| > 0 ==> Below(end.outbox, who, orders[|orders| - 1].stamp.secondOut + 1))
  {
    if |orders| > 0 {
      var n := |orders| - 1;
      BeforeLast(db, who, orders);
      ApplyAllInOrder(owner, db, who, orders[..n]);
      var mid := ApplyAll(db, who, orders[..n]).db;
      if n > 0 {
        BelowMore(mid.outbox, who, orders[n - 1].stamp.secondOut + 1, orders[n].stamp.firstOut);
      } else {
        assert mid == db;
      }
      assert Owned(owner, who, orders[n].action);
      ApplyInOrder(owner, mid, who, orders[n]);
    }
  }

  /** Rows appended for one account leave the draws of another above its rows. */
  lemma {:induction false} ApplyAllElsewhereBelow(
      owner: Owner, db: Tables, who: Account, orders: seq<Order>, other: Account, bound: nat)
    requires Good(db) && FreshOrders(db, orders) && Admissible(db, who, orders) && ApplyAll(db, who, orders).Done?
    requires OwnedLedger(owner, db.ledger) && AllOwned(owner, who, orders) && other != who && Below(db.outbox, other, bound)
    ensures OwnedLedger(owner, ApplyAll(db, who, orders).db.ledger)
    ensures Below(ApplyAll(db, who, orders).db.outbox, other, bound)
  {
    if |orders| > 0 {
      var n := |orders| - 1;
      BeforeLast(db, who, orders);
      ApplyAllElsewhereBelow(owner, db, who, orders[..n], other, bound);
      var mid := ApplyAll(db, who, orders[..n]).db;
      assert Owned(owner, who, orders[n].action);
      if orders[n].action.id !in mid.registry {
        PostsOfOwner(owner, mid, who, orders[n].action, orders[n].stamp);
        OwnedNext(owner, mid, who, Judge(mid, who, orders[n].action, orders[n].stamp));
      }
    }
  }

  /** Of two rows of one account the worker takes, or has found processed, the earlier if it takes the later. */
  ghost predicate TakesInOrder(rows: seq<OutboxRow>, ids: set<nat>) {
    forall i, j | 0 <= i < j < |rows| && rows[i].bucket.account == rows[j].bucket.account && rows[j].id in ids ::
      rows[i].id in ids || rows[i].status == Processed
  }

  /** A limited claim takes the rows of every account in order, though not those of all accounts: a row of
      another account with a lower id may become visible later. */
  lemma LimitTakesInOrder(db: Tables, n: nat)
    requires Balanced(db) && AccountOrdered(db.outbox)
    ensures TakesInOrder(db.outbox, Lowest(PendingIds(db.outbox), n))
  {
    var rows, ids := db.outbox, Lowest(PendingIds(db.outbox), n);
    PendingRowsHaveIds(rows);
    forall i, j | 0 <= i < j < |rows| && rows[i].bucket.account == rows[j].bucket.account && rows[j].id in ids
      ensures rows[i].id in ids || rows[i].status == Processed
    {
      if rows[i].status == Pending {
        LowestSkipsNone(PendingIds(rows), n, rows[i].id, rows[j].id);
      }
    }
  }

  lemma TakesAfterAppend(rows: seq<OutboxRow>, more: seq<OutboxRow>, ids: set<nat>)
    requires TakesInOrder(rows, ids) && |rows| <= |more| && more[..|rows|] == rows
    requires forall i | |rows| <= i < |more| :: more[i].id !in ids
    ensures TakesInOrder(more, ids)
  {
    forall i, j | 0 <= i < j < |more| && more[i].bucket.account == more[j].bucket.account && more[j].id in ids
      ensures more[i].id in ids || more[i].status == Processed
    {
      assert more[i] == more[..|rows|][i] && more[j] == more[..|rows|][j];
    }
  }

  lemma ProcessedAfterAppend(rows: seq<OutboxRow>, more: seq<OutboxRow>)
    requires ProcessedInOrder(rows) && |rows| <= |more| && more[..|rows|] == rows
    requires forall i | |rows| <= i < |more| :: more[i].status == Pending
    ensures ProcessedInOrder(more)
  {
    forall i, j | 0 <= i < j < |more| && more[i].bucket.account == more[j].bucket.account && more[j].status == Processed
      ensures more[i].status == Processed
    {
      assert more[i] == more[..|rows|][i] && more[j] == more[..|rows|][j];
    }
  }

  lemma ProcessedAfterDrain(rows: seq<OutboxRow>, ids: set<nat>)
    requires ProcessedInOrder(rows) && TakesInOrder(rows, ids)
    ensures ProcessedInOrder(SetStatus(rows, ids, Processed))
  {
  }

  /** The rows that workers hold locked. */
  ghost function Held(workers: map<nat, Worker>): set<nat> {
    set w, id | w in workers && id in workers[w].ids :: id
  }

  /** `ORDER BY id FOR UPDATE SKIP LOCKED LIMIT ...`. */
  ghost predicate SkipsLocked(sys: System, ids: set<nat>) {
    exists limit: nat :: ids == Lowest(PendingIds(sys.committed.outbox) - Held(sys.workers), limit)
  }

  /** A deployment of at most `n` workers, each claiming the lowest pending rows that no other one holds. Its
      requests draw from a sequence, and keep to the ids of their account; nothing else is asked of them. */
  ghost predicate Deployed(owner: Owner, n: nat, sys: System, a: Move) {
    && (a.Claim? ==> |sys.workers| < n && SkipsLocked(sys, a.ids))
    && (a.Lock? ==> Draws(sys.committed.outbox, a.who, a.orders) && AllOwned(owner, a.who, a.orders))
  }

  ghost predicate AllDraw(owner: Owner, rows: seq<OutboxRow>, txns: map<nat, Txn>) {
    forall t {:trigger txns[t]} | t in txns ::
      Draws(rows, txns[t].who, txns[t].orders) && AllOwned(owner, txns[t].who, txns[t].orders)
  }

  ghost predicate AllTakeInOrder(rows: seq<OutboxRow>, workers: map<nat, Worker>) {
    forall w {:trigger workers[w]} | w in workers :: TakesInOrder(rows, workers[w].ids)
  }

  ghost predicate Served(db: Tables) {
    NeverNegative(db.outbox) && ProcessedInOrder(db.outbox) && AccountOrdered(db.outbox)
  }

  /** What a single worker keeps. */
  ghost predicate InOrder(owner: Owner, sys: System) {
    && Served(sys.committed) && OwnedLedger(owner, sys.committed.ledger)
    && AllDraw(owner, sys.committed.outbox, sys.txns) && AllTakeInOrder(sys.committed.outbox, sys.workers)
  }

  lemma DrawsElsewhere(owner: Owner, db: Tables, t: Txn, other: Txn)
    requires Good(db) && OnTrack(db, t) && t.done == |t.orders| && other.who != t.who
    requires OwnedLedger(owner, db.ledger) && AllOwned(owner, t.who, t.orders) && Draws(db.outbox, other.who, other.orders)
    ensures Draws(View(db, t).outbox, other.who, other.orders)
  {
    CommitIsServe(db, t);
    OpenKeepsFresh(db, t.who, t.orders);
    forall i | 0 <= i < |other.orders|
      ensures Below(View(db, t).outbox, other.who, other.orders[i].stamp.firstOut)
    {
      ApplyAllElsewhereBelow(
        owner, Open(db, t.who), t.who, t.orders, other.who, other.orders[i].stamp.firstOut);
    }
  }

  lemma CommitIsInOrder(owner: Owner, db: Tables, t: Txn)
    requires Good(db) && OnTrack(db, t) && t.done == |t.orders|
    requires Served(db) && OwnedLedger(owner, db.ledger)
    requires AllOwned(owner, t.who, t.orders) && Draws(db.outbox, t.who, t.orders)
    ensures Served(View(db, t)) && OwnedLedger(owner, View(db, t).ledger)
  {
    var start := Open(db, t.who);
    CommitIsServe(db, t);
    OpenKeepsFresh(db, t.who, t.orders);
    ApplyAllInOrder(owner, start, t.who, t.orders);
    ApplyAllNeverNegative(start, t.who, t.orders);
    NewRowsPend(start, t.who, t.orders);
    ProcessedAfterAppend(db.outbox, View(db, t).outbox);
  }

  lemma CommitKeepsTakes(db: Tables, t: Txn, w: Worker)
    requires Good(db) && Good(View(db, t)) && OnTrack(db, t) && t.done == |t.orders|
    requires w.ids <= PendingIds(db.outbox) && TakesInOrder(db.outbox, w.ids)
    ensures TakesInOrder(View(db, t).outbox, w.ids)
  {
    CommitIsServe(db, t);
    NewRowsPend(Open(db, t.who), t.who, t.orders);
    NewIdsAreNew(db.outbox, View(db, t).outbox, w.ids);
    TakesAfterAppend(db.outbox, View(db, t).outbox, w.ids);
  }

  lemma NewIdsAreNew(rows: seq<OutboxRow>, more: seq<OutboxRow>, ids: set<nat>)
    requires ids <= PendingIds(rows) && DistinctIds(more) && |rows| <= |more| && more[..|rows|] == rows
    ensures forall i | |rows| <= i < |more| :: more[i].id !in ids
  {
    PendingHasRow(rows, ids);
    forall i | |rows| <= i < |more|
      ensures more[i].id !in ids
    {
      assert forall j | 0 <= j < |rows| :: more[j] == more[..|rows|][j];
    }
  }

  lemma CommitKeepsOrder(owner: Owner, db: Tables, sys: System, t: nat)
    requires Inv(db, sys) && InOrder(owner, sys) && Enabled(sys, Commit(t))
    requires Good(View(sys.committed, sys.txns[t]))
    ensures InOrder(owner, Next(sys, Commit(t)))
  {
    var c, txn := sys.committed, sys.txns[t];
    assert OnTrack(c, txn);
    CommitIsInOrder(owner, c, txn);
    forall u | u in sys.txns - {t}
      ensures Draws(View(c, txn).outbox, sys.txns[u].who, sys.txns[u].orders)
    {
      assert Separate(txn, sys.txns[u]);
      DrawsElsewhere(owner, c, txn, sys.txns[u]);
    }
    forall w | w in sys.workers
      ensures TakesInOrder(View(c, txn).outbox, sys.workers[w].ids)
    {
      assert Holds(c, sys.workers[w]);
      CommitKeepsTakes(c, txn, sys.workers[w]);
    }
  }

  lemma SameRowsInOrder(rows: seq<OutboxRow>, ids: set<nat>)
    requires AccountOrdered(rows)
    ensures AccountOrdered(SetStatus(rows, ids, Processed))
  {
    var after := SetStatus(rows, ids, Processed);
    forall i, j | 0 <= i < j < |after| && after[i].bucket.account == after[j].bucket.account
      ensures after[i].id < after[j].id
    {
      assert rows[i].id < rows[j].id;
    }
  }

  lemma FinishIsInOrder(owner: Owner, db: Tables, w: Worker)
    requires Served(db) && TakesInOrder(db.outbox, w.ids)
    ensures Served(Finished(db, w))
  {
    StatusKeepsNeverNegative(db.outbox, w.ids);
    ProcessedAfterDrain(db.outbox, w.ids);
    SameRowsInOrder(db.outbox, w.ids);
  }

  lemma FinishKeepsOrder(owner: Owner, db: Tables, sys: System, w: nat)
    requires InOrder(owner, sys) && Enabled(sys, Finish(w))
    ensures InOrder(owner, Next(sys, Finish(w)))
  {
    FinishIsInOrder(owner, sys.committed, sys.workers[w]);
  }

  lemma OnlyClaimTakesInOrder(sys: System, ids: set<nat>)
    requires Balanced(sys.committed) && AccountOrdered(sys.committed.outbox)
    requires |sys.workers| < 1 && SkipsLocked(sys, ids)
    ensures TakesInOrder(sys.committed.outbox, ids)
  {
    var pending := PendingIds(sys.committed.outbox);
    assert sys.workers == map[] && Held(sys.workers) == {} && pending - {} == pending;
    var n: nat :| ids == Lowest(pending - Held(sys.workers), n);
    LimitTakesInOrder(sys.committed, n);
  }

  lemma ClaimTakes(rows: seq<OutboxRow>, workers: map<nat, Worker>, w: nat, ids: set<nat>)
    requires AllTakeInOrder(rows, workers) && TakesInOrder(rows, ids)
    ensures AllTakeInOrder(rows, workers[w := Worker(ids, map[])])
  {
  }

  lemma ClaimKeepsOrder(owner: Owner, db: Tables, sys: System, w: nat, ids: set<nat>)
    requires Good(sys.committed) && InOrder(owner, sys) && Enabled(sys, Claim(w, ids)) && Deployed(owner, 1, sys, Claim(w, ids))
    ensures InOrder(owner, Next(sys, Claim(w, ids)))
  {
    OnlyClaimTakesInOrder(sys, ids);
    ClaimTakes(sys.committed.outbox, sys.workers, w, ids);
  }

  lemma MoveKeepsOrder(owner: Owner, db: Tables, sys: System, a: Move)
    requires Inv(db, sys) && InOrder(owner, sys) && Enabled(sys, a) && Deployed(owner, 1, sys, a)
    ensures InOrder(owner, Next(sys, a))
  {
    match a
    case Commit(t) =>
      CommitKeepsInv(db, sys, t);
      CommitKeepsOrder(owner, db, sys, t);
    case Finish(w) => FinishKeepsOrder(owner, db, sys, w);
    case Claim(w, ids) => ClaimKeepsOrder(owner, db, sys, w, ids);
    case Recover => RecoverChangesNothing(sys);
    case _ => OtherMovesKeepOrder(owner, sys, a);
  }

  lemma OtherMovesKeepOrder(owner: Owner, sys: System, a: Move)
    requires InOrder(owner, sys) && Enabled(sys, a) && Deployed(owner, 1, sys, a)
    requires a.Lock? || a.Decide? || a.Act? || a.Abort? || a.PutRollup? || a.Drop?
    ensures InOrder(owner, Next(sys, a))
  {
  }

  ghost function WorkersMove(owner: Owner, n: nat): (System, Move, System) -> bool {
    (sys, a, next) => MovesTo(sys, a, next) && Deployed(owner, n, sys, a)
  }

  /** The behaviors of a database with at most `n` drain workers. */
  ghost predicate WorkersBehavior(owner: Owner, n: nat, states: seq<System>, moves: seq<Move>) {
    Path(WorkersMove(owner, n), states, moves)
  }

  lemma WorkersBehave(owner: Owner, n: nat, states: seq<System>, moves: seq<Move>)
    requires WorkersBehavior(owner, n, states, moves)
    ensures Behavior(states, moves)
  {
    forall i | 0 <= i < |moves|
      ensures MovesTo(states[i], moves[i], states[i + 1])
    {
      assert WorkersMove(owner, n)(states[i], moves[i], states[i + 1]);
    }
  }

  lemma StartIsInOrder(owner: Owner, services: set<Service>, db: Tables)
    requires db.outbox == [] && OwnedLedger(owner, db.ledger)
    ensures InOrder(owner, Start(services, db))
  {
    forall n: nat, f: iset<Bucket>, m: Measure | n <= 0
      ensures OutboxSum(db.outbox[..n], f, ANY_STATUS, m) >= 0
    {
    }
  }

  lemma WorkersMoveKeepsOrder(owner: Owner, db: Tables, sys: System, a: Move, next: System)
    requires Inv(db, sys) && InOrder(owner, sys) && WorkersMove(owner, 1)(sys, a, next)
    ensures InOrder(owner, next)
  {
    MoveKeepsOrder(owner, db, sys, a);
  }

  lemma {:induction false} StaysInOrder(
      owner: Owner, services: set<Service>, db: Tables, states: seq<System>, moves: seq<Move>, i: nat)
    requires WorkersBehavior(owner, 1, states, moves) && Starts(services, db, states[0]) && i < |states|
    requires db.outbox == [] && OwnedLedger(owner, db.ledger)
    ensures InOrder(owner, states[i])
  {
    if i == 0 {
      StartIsInOrder(owner, services, db);
    } else {
      StaysInOrder(owner, services, db, states, moves, i - 1);
      WorkersBehave(owner, 1, states, moves);
      Serializable(services, db, states, moves, i - 1);
      assert WorkersMove(owner, 1)(states[i - 1], moves[i - 1], states[i]);
      WorkersMoveKeepsOrder(owner, db, states[i - 1], moves[i - 1], states[i]);
    }
  }

  lemma {:induction false} ProcessedIsAPrefix(rows: seq<OutboxRow>, k: Bucket, m: Measure)
    requires NeverNegative(rows) && ProcessedInOrder(rows)
    ensures OutboxSum(rows, iset{k}, {Processed}, m) >= 0
  {
    if |rows| > 0 {
      var n := |rows| - 1;
      if rows[n].bucket == k && rows[n].status == Processed {
        AllProcessed(rows, k, m);
        assert rows[..|rows|] == rows;
      } else {
        forall i: nat, f: iset<Bucket>, l: Measure | i <= n
          ensures OutboxSum(rows[..n][..i], f, ANY_STATUS, l) >= 0
        {
          assert rows[..n][..i] == rows[..i];
        }
        ProcessedIsAPrefix(rows[..n], k, m);
      }
    }
  }

  lemma {:induction false} AllProcessed(rows: seq<OutboxRow>, k: Bucket, m: Measure)
    requires forall i | 0 <= i < |rows| && rows[i].bucket == k :: rows[i].status == Processed
    ensures OutboxSum(rows, iset{k}, {Processed}, m) == OutboxSum(rows, iset{k}, ANY_STATUS, m)
  {
    if |rows| > 0 {
      AllProcessed(rows[..|rows| - 1], k, m);
      EveryStatus(rows[|rows| - 1].status);
    }
  }

  lemma {:induction false} RollupSumOfOne(rollup: map<Bucket, Columns>, k: Bucket, m: Measure)
    ensures RollupSum(rollup, iset{k}, m) == Get(rollup, k).At(m)
    decreases rollup.Keys
  {
    if rollup.Keys != {} {
      var c :| c in rollup.Keys;
      RollupSumRemove(rollup, c, iset{k}, m);
      RollupSumOfOne(rollup - {c}, k, m);
    }
  }

  /** In every state of every behavior with a single worker, beside any number of live requests, each column of
      each rollup row is non-negative: the delta that adds an original has a lower id than the one that
      removes it, and the worker takes the rows of an account in id order. */
  lemma RollupNeverNegative(
      owner: Owner, services: set<Service>, db: Tables, states: seq<System>, moves: seq<Move>, i: nat, k: Bucket, m: Measure)
    requires WorkersBehavior(owner, 1, states, moves) && Starts(services, db, states[0]) && i < |states|
    requires db.outbox == [] && OwnedLedger(owner, db.ledger)
    ensures Get(states[i].committed.rollup, k).At(m) >= 0
  {
    WorkersBehave(owner, 1, states, moves);
    Serializable(services, db, states, moves, i);
    StaysInOrder(owner, services, db, states, moves, i);
    ProcessedIsAPrefix(states[i].committed.outbox, k, m);
    RollupSumOfOne(states[i].committed.rollup, k, m);
  }
}
