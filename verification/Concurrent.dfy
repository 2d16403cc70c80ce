/** Requests and drain workers that interleave: nothing serializes two requests but the row lock on
    their account, and nothing two workers but the row locks on outbox and rollup. */
module Concurrent {
  import opened Schema
  import opened Wallet
  import opened Rollup
  import opened Reconciliation
  import opened Runs
  import opened History
  import opened Slices
  import opened Services
  import opened RustProcessor
  import opened Transactions
  import opened RtpOutbox
  import opened Paths

  /** A drain worker: the outbox rows it locked, and the rollup rows it wrote and holds locked. */
  datatype Worker = Worker(ids: set<nat>, puts: map<Bucket, Columns>)

  /** `services` are those that serve the database; `history` lists what has committed, in commit order. */
  datatype System = System(
    services: set<Service>, committed: Tables, txns: map<nat, Txn>, workers: map<nat, Worker>, history: seq<Event>)

  datatype Move =
    | Lock(t: nat, service: Service, who: Account, orders: seq<Order>)
    | Decide(t: nat)
    | Act(t: nat)
    | Commit(t: nat)
    | Abort(t: nat)
    | Claim(w: nat, ids: set<nat>)
    | PutRollup(w: nat, k: Bucket)
    | Finish(w: nat)
    | Drop(w: nat)
    | Recover

  ghost predicate StampsApart(a: seq<Order>, b: seq<Order>) {
    forall i, j {:trigger Apart(a[i].stamp, b[j].stamp)} | 0 <= i < |a| && 0 <= j < |b| :: Apart(a[i].stamp, b[j].stamp)
  }

  /** Every service of the database can read these times as they were written. */
  predicate ClockedForAll(services: set<Service>, orders: seq<Order>) {
    forall service {:trigger Clocked(service, orders)} | service in services :: Clocked(service, orders)
  }

  ghost predicate LegibleToAll(services: set<Service>, ledger: seq<Entry>) {
    forall service {:trigger Legible(service, ledger)} | service in services :: Legible(service, ledger)
  }

  /** What a request brings with it: fresh draws, readable times, and for the TypeScript service validated
      amounts; a `bigint` balance is all the Rust service can read. */
  ghost predicate Arrives(sys: System, service: Service, who: Account, orders: seq<Order>) {
    && service in sys.services && ClockedForAll(sys.services, orders)
    && (service.TypeScript? ==> Validated(orders)) && (service.Rust? ==> Balance(sys.committed, who) <= MAX_I64)
    && FreshOrders(sys.committed, orders) && (forall u | u in sys.txns :: StampsApart(orders, sys.txns[u].orders))
  }

  /** What a step needs, but for what keeps requests apart. */
  ghost predicate Feasible(sys: System, a: Move) {
    match a
    case Lock(t, service, who, orders) => t !in sys.txns && Arrives(sys, service, who, orders)
    case Decide(t) => t in sys.txns && sys.txns[t].done < |sys.txns[t].orders| && sys.txns[t].verdict.None?
    case Act(t) => t in sys.txns && sys.txns[t].done < |sys.txns[t].orders| && sys.txns[t].verdict.Some?
      && !sys.txns[t].verdict.value.Refusal?
    case Commit(t) => t in sys.txns && sys.txns[t].done == |sys.txns[t].orders|
    case Abort(t) => t in sys.txns
    case Claim(w, ids) => w !in sys.workers && ids <= PendingIds(sys.committed.outbox)
      && (forall v | v in sys.workers :: sys.workers[v].ids !! ids)
    case PutRollup(w, k) => w in sys.workers && k in Buckets(sys.committed.outbox, sys.workers[w].ids)
      && k !in sys.workers[w].puts && (forall v | v in sys.workers :: k !in sys.workers[v].puts)
    case Finish(w) => w in sys.workers && sys.workers[w].puts.Keys == Buckets(sys.committed.outbox, sys.workers[w].ids)
    case Drop(w) => w in sys.workers
    case Recover => true
  }

  /** `SELECT ... FOR UPDATE`: one transaction to an account. */
  predicate LockIsFree(sys: System, who: Account) {
    forall u | u in sys.txns :: sys.txns[u].who != who
  }

  /** Transactions in flight for different accounts name different ids. */
  ghost predicate NamesApart(sys: System, who: Account, orders: seq<Order>) {
    forall u | u in sys.txns && sys.txns[u].who != who :: AllNamed(orders) !! AllNamed(sys.txns[u].orders)
  }

  ghost predicate Enabled(sys: System, a: Move) {
    Feasible(sys, a) && (a.Lock? ==> LockIsFree(sys, a.who) && NamesApart(sys, a.who, a.orders))
  }

  function Put(db: Tables, w: Worker, k: Bucket): Worker {
    w.(puts := w.puts[k := Get(db.rollup, k).Plus(GroupSum(db.outbox, w.ids, k))])
  }

  function Finished(db: Tables, w: Worker): Tables {
    db.(rollup := db.rollup + w.puts, outbox := SetStatus(db.outbox, w.ids, Processed))
  }

  ghost function Next(sys: System, a: Move): System
    requires Feasible(sys, a)
  {
    match a
    case Lock(t, service, who, orders) => sys.(txns := sys.txns[t := Locked(service, sys.committed, who, orders)])
    case Decide(t) => sys.(txns := sys.txns[t := Decided(sys.committed, sys.txns[t])])
    case Act(t) => sys.(txns := sys.txns[t := Acted(sys.txns[t])])
    case Commit(t) =>
      sys.(committed := View(sys.committed, sys.txns[t]), txns := sys.txns - {t},
           history := sys.history + [Request(sys.txns[t].who, sys.txns[t].orders)])
    case Abort(t) => sys.(txns := sys.txns - {t})
    case Claim(w, ids) => sys.(workers := sys.workers[w := Worker(ids, map[])])
    case PutRollup(w, k) => sys.(workers := sys.workers[w := Put(sys.committed, sys.workers[w], k)])
    case Finish(w) =>
      sys.(committed := Finished(sys.committed, sys.workers[w]), workers := sys.workers - {w},
           history := sys.history + [Batch(sys.workers[w].ids)])
    case Drop(w) => sys.(workers := sys.workers - {w})
    case Recover =>
      sys.(committed := sys.committed.(outbox := SetStatus(sys.committed.outbox, ProcessingIds(sys.committed.outbox), Pending)))
  }

  /** The worker's rows are still pending, and its rollup rows are the committed ones plus its groups. */
  ghost predicate Holds(db: Tables, w: Worker) {
    && w.ids <= PendingIds(db.outbox)
    && w.puts.Keys <= Buckets(db.outbox, w.ids)
    && forall k | k in w.puts :: w.puts[k] == Get(db.rollup, k).Plus(GroupSum(db.outbox, w.ids, k))
  }

  ghost predicate Separate(t: Txn, u: Txn) {
    t.who != u.who && StampsApart(t.orders, u.orders) && AllNamed(t.orders) !! AllNamed(u.orders)
  }

  ghost predicate Disjoint(v: Worker, w: Worker) {
    v.ids !! w.ids && v.puts.Keys !! w.puts.Keys
  }

  /** The transaction writes no time that a service of the database cannot read. */
  ghost predicate Fits(services: set<Service>, t: Txn) {
    t.service in services && ClockedForAll(services, t.orders)
  }

  /** The transactions in flight have nothing in common, and each is where a serial run would be. */
  ghost predicate TxnsInv(services: set<Service>, db: Tables, txns: map<nat, Txn>) {
    && LegibleToAll(services, db.ledger)
    && (forall t {:trigger Fits(services, txns[t])} | t in txns :: Fits(services, txns[t]))
    && (forall t {:trigger OnTrack(db, txns[t])} | t in txns :: OnTrack(db, txns[t]))
    && (forall t, u {:trigger Separate(txns[t], txns[u])} | t in txns && u in txns && t != u :: Separate(txns[t], txns[u]))
  }

  /** The workers have nothing in common, and what each holds is still there. */
  ghost predicate WorkersInv(db: Tables, workers: map<nat, Worker>) {
    && (forall w {:trigger Holds(db, workers[w])} | w in workers :: Holds(db, workers[w]))
    && (forall v, w {:trigger Disjoint(workers[v], workers[w])} | v in workers && w in workers && v != w ::
          Disjoint(workers[v], workers[w]))
  }

  /** Every request in the history was served, not refused. */
  ghost predicate AllServed(db: Tables, events: seq<Event>) {
    |events| == 0
    || (AllServed(db, events[..|events| - 1])
        && (events[|events| - 1].Request? ==>
              Serve(Run(db, events[..|events| - 1]), events[|events| - 1].who, events[|events| - 1].orders).Done?))
  }

  /** The committed tables are those of the history, run one event at a time and none refused. */
  ghost predicate Serial(db: Tables, committed: Tables, history: seq<Event>) {
    ValidRun(db, history) && AllServed(db, history) && committed == Run(db, history) && Good(committed)
  }

  ghost predicate Inv(db: Tables, sys: System) {
    && Serial(db, sys.committed, sys.history)
    && TxnsInv(sys.services, sys.committed, sys.txns)
    && WorkersInv(sys.committed, sys.workers)
  }

  lemma FreshAfterServe(db: Tables, who: Account, orders: seq<Order>, others: seq<Order>)
    requires Good(db) && Admissible(Open(db, who), who, orders) && FreshOrders(db, orders) && Serve(db, who, orders).Done?
    requires FreshOrders(db, others) && StampsApart(orders, others)
    ensures FreshOrders(Serve(db, who, orders).db, others)
  {
    var start := Open(db, who);
    OpenKeepsFresh(db, who, orders);
    ApplyAllKeepsGood(start, who, orders);
  }

  lemma {:induction false} ColumnSumPrefix(rows: seq<OutboxRow>, n: nat, ids: set<nat>, k: Bucket, m: Measure)
    requires n <= |rows| && forall i | n <= i < |rows| :: rows[i].id !in ids
    ensures ColumnSum(rows, ids, k, m) == ColumnSum(rows[..n], ids, k, m)
  {
    if n == |rows| {
      assert rows[..n] == rows;
    } else {
      assert rows[..|rows| - 1][..n] == rows[..n];
      ColumnSumPrefix(rows[..|rows| - 1], n, ids, k, m);
    }
  }

  lemma PendingHasRow(rows: seq<OutboxRow>, ids: set<nat>)
    requires ids <= PendingIds(rows)
    ensures forall id | id in ids :: exists j | 0 <= j < |rows| :: rows[j].id == id
  {
    forall id | id in ids
      ensures exists j | 0 <= j < |rows| :: rows[j].id == id
    {
      var row :| row in rows && row.id == id;
      var j :| 0 <= j < |rows| && rows[j] == row;
    }
  }

  // Rows appended to the outbox are not among those a worker holds.
  lemma HoldsAfterAppend(db: Tables, next: Tables, w: Worker)
    requires Holds(db, w) && DistinctIds(next.outbox) && next.rollup == db.rollup
    requires |db.outbox| <= |next.outbox| && next.outbox[..|db.outbox|] == db.outbox
    ensures Holds(next, w)
  {
    var n := |db.outbox|;
    var rows := next.outbox;
    forall i | n <= i < |rows|
      ensures rows[i].id !in w.ids
    {
      PendingHasRow(db.outbox, w.ids);
    }
    assert forall row | row in db.outbox :: row in rows;
    assert w.ids <= PendingIds(rows);
    assert Buckets(db.outbox, w.ids) <= Buckets(rows, w.ids);
    forall k | k in w.puts
      ensures GroupSum(rows, w.ids, k) == GroupSum(db.outbox, w.ids, k)
    {
      forall m: Measure
        ensures GroupSum(rows, w.ids, k).At(m) == GroupSum(db.outbox, w.ids, k).At(m)
      {
        ColumnSumPrefix(rows, n, w.ids, k, m);
      }
      SameColumns(GroupSum(rows, w.ids, k), GroupSum(db.outbox, w.ids, k));
    }
  }

  // What a worker commits is the batch it claimed, however many others committed since.
  lemma FinishIsDrain(db: Tables, w: Worker)
    requires Holds(db, w) && w.puts.Keys == Buckets(db.outbox, w.ids)
    ensures db.rollup + w.puts == Upsert(db.rollup, Aggregate(db.outbox, w.ids))
  {
    var batch := Upsert(db.rollup, Aggregate(db.outbox, w.ids));
    assert batch.Keys == db.rollup.Keys + w.puts.Keys;
    forall k | k in batch
      ensures (db.rollup + w.puts)[k] == batch[k]
    {
      if k in w.puts {
        assert batch[k] == Get(db.rollup, k).Plus(GroupSum(db.outbox, w.ids, k));
      } else {
        PlusZero(db.rollup[k]);
      }
    }
  }

  lemma HoldsAfterDrain(db: Tables, w: Worker, other: Worker)
    requires Holds(db, w) && Holds(db, other) && w.ids !! other.ids && w.puts.Keys !! other.puts.Keys
    ensures Holds(db.(rollup := db.rollup + other.puts, outbox := SetStatus(db.outbox, other.ids, Processed)), w)
  {
    var rows := SetStatus(db.outbox, other.ids, Processed);
    PendingAfter(db.outbox, other.ids);
    BucketsStatus(db.outbox, other.ids, Processed, w.ids);
    forall k | k in w.puts
      ensures GroupSum(rows, w.ids, k) == GroupSum(db.outbox, w.ids, k)
    {
      forall m: Measure
        ensures GroupSum(rows, w.ids, k).At(m) == GroupSum(db.outbox, w.ids, k).At(m)
      {
        ColumnSumStatus(db.outbox, other.ids, Processed, w.ids, k, m);
      }
      SameColumns(GroupSum(rows, w.ids, k), GroupSum(db.outbox, w.ids, k));
    }
  }

  lemma CommitKeepsLegible(services: set<Service>, db: Tables, t: Txn)
    requires OnTrack(db, t) && t.done == |t.orders| && LegibleToAll(services, db.ledger) && Fits(services, t)
    ensures LegibleToAll(services, View(db, t).ledger)
  {
    CommitIsServe(db, t);
    forall service | service in services
      ensures Legible(service, View(db, t).ledger)
    {
      assert Clocked(service, t.orders) && Legible(service, db.ledger);
      ApplyAllKeepsLegible(service, Open(db, t.who), t.who, t.orders);
    }
  }

  lemma CommitKeepsTrack(db: Tables, t: Txn, other: Txn)
    requires Good(db) && OnTrack(db, t) && OnTrack(db, other) && t.done == |t.orders|
    requires Separate(t, other) && Legible(other.service, View(db, t).ledger)
    ensures OnTrack(View(db, t), other)
  {
    CommitIsServe(db, t);
    FreshAfterServe(db, t.who, t.orders, other.orders);
    NamedOutside(other.orders, t.orders);
    ServeElsewhere(AllNamed(other.orders), other.who, db, t.who, t.orders);
    TrackElsewhere(db, View(db, t), other);
  }

  lemma TxnsAfterEnd(services: set<Service>, db: Tables, txns: map<nat, Txn>, t: nat)
    requires TxnsInv(services, db, txns)
    ensures TxnsInv(services, db, txns - {t})
  {
    var rest := txns - {t};
    forall u | u in rest
      ensures Fits(services, rest[u]) && OnTrack(db, rest[u])
    {
      assert Fits(services, txns[u]) && OnTrack(db, txns[u]);
    }
    forall u, v | u in rest && v in rest && u != v
      ensures Separate(rest[u], rest[v])
    {
      assert Separate(txns[u], txns[v]);
    }
  }

  lemma SeparateBothWays(t: Txn, u: Txn)
    requires Separate(t, u)
    ensures Separate(u, t)
  {
    forall i, j | 0 <= i < |u.orders| && 0 <= j < |t.orders|
      ensures Apart(u.orders[i].stamp, t.orders[j].stamp)
    {
      assert Apart(t.orders[j].stamp, u.orders[i].stamp);
    }
  }

  lemma TxnsAfterMove(services: set<Service>, db: Tables, txns: map<nat, Txn>, t: nat, txn: Txn)
    requires TxnsInv(services, db, txns) && OnTrack(db, txn) && Fits(services, txn)
    requires forall u {:trigger Separate(txn, txns[u])} | u in txns && u != t :: Separate(txn, txns[u])
    ensures TxnsInv(services, db, txns[t := txn])
  {
    var next := txns[t := txn];
    forall u | u in next
      ensures Fits(services, next[u]) && OnTrack(db, next[u])
    {
      assert u != t ==> Fits(services, txns[u]) && OnTrack(db, txns[u]);
    }
    forall u, v | u in next && v in next && u != v
      ensures Separate(next[u], next[v])
    {
      if v == t {
        assert Separate(txn, txns[u]);
        SeparateBothWays(txn, txns[u]);
      } else if u == t {
        assert Separate(txn, txns[v]);
      } else {
        assert Separate(txns[u], txns[v]);
      }
    }
  }

  // A transaction that goes on with its request stays apart from the others.
  lemma TxnsAfterProgress(services: set<Service>, db: Tables, txns: map<nat, Txn>, t: nat, txn: Txn)
    requires TxnsInv(services, db, txns) && t in txns && OnTrack(db, txn)
    requires txn.service == txns[t].service && txn.who == txns[t].who && txn.orders == txns[t].orders
    ensures TxnsInv(services, db, txns[t := txn])
  {
    assert Fits(services, txns[t]);
    forall u | u in txns && u != t
      ensures Separate(txn, txns[u])
    {
      assert Separate(txns[t], txns[u]);
    }
    TxnsAfterMove(services, db, txns, t, txn);
  }

  lemma TxnsAfterCommit(services: set<Service>, db: Tables, txns: map<nat, Txn>, t: nat)
    requires Good(db) && TxnsInv(services, db, txns) && t in txns && txns[t].done == |txns[t].orders|
    ensures TxnsInv(services, View(db, txns[t]), txns - {t})
  {
    var rest, txn := txns - {t}, txns[t];
    assert OnTrack(db, txn) && Fits(services, txn);
    CommitKeepsLegible(services, db, txn);
    forall u | u in rest
      ensures Fits(services, rest[u]) && OnTrack(View(db, txn), rest[u])
    {
      assert Fits(services, txns[u]) && OnTrack(db, txns[u]) && Separate(txn, txns[u]);
      assert Legible(txns[u].service, View(db, txn).ledger);
      CommitKeepsTrack(db, txn, txns[u]);
    }
    forall u, v | u in rest && v in rest && u != v
      ensures Separate(rest[u], rest[v])
    {
      assert Separate(txns[u], txns[v]);
    }
  }

  lemma CommitKeepsSerial(db: Tables, committed: Tables, history: seq<Event>, t: Txn)
    requires Serial(db, committed, history) && OnTrack(committed, t) && t.done == |t.orders|
    ensures Serial(db, View(committed, t), history + [Request(t.who, t.orders)])
  {
    CommitIsServe(committed, t);
    ServeKeepsGood(committed, t.who, t.orders);
    RunNext(db, history, Request(t.who, t.orders));
    assert (history + [Request(t.who, t.orders)])[..|history|] == history;
  }

  lemma WorkersAfterCommit(db: Tables, t: Txn, workers: map<nat, Worker>)
    requires Good(View(db, t)) && OnTrack(db, t) && t.done == |t.orders| && WorkersInv(db, workers)
    ensures WorkersInv(View(db, t), workers)
  {
    CommitIsServe(db, t);
    NewRowsPend(Open(db, t.who), t.who, t.orders);
    forall w | w in workers
      ensures Holds(View(db, t), workers[w])
    {
      assert Holds(db, workers[w]);
      HoldsAfterAppend(db, View(db, t), workers[w]);
    }
  }

  lemma FinishKeepsSerial(db: Tables, committed: Tables, history: seq<Event>, w: Worker)
    requires Serial(db, committed, history) && Holds(committed, w)
    requires w.puts.Keys == Buckets(committed.outbox, w.ids)
    ensures Serial(db, Finished(committed, w), history + [Batch(w.ids)])
  {
    FinishIsDrain(committed, w);
    PendingAreDrainable(committed, w.ids);
    RunNext(db, history, Batch(w.ids));
    assert (history + [Batch(w.ids)])[..|history|] == history;
    DrainKeepsBalanced(committed, w.ids);
  }

  lemma FinishKeepsFresh(db: Tables, w: Worker, orders: seq<Order>)
    requires FreshOrders(db, orders)
    ensures FreshOrders(Finished(db, w), orders)
  {
    forall i | 0 <= i < |orders|
      ensures Fresh(Finished(db, w), orders[i].stamp)
    {
      assert Fresh(db, orders[i].stamp);
    }
  }

  lemma FinishKeepsSlice(ids: set<ActionId>, who: Account, db: Tables, w: Worker)
    ensures SameSlice(ids, who, db, Finished(db, w))
  {
  }

  lemma TxnsAfterFinish(services: set<Service>, db: Tables, txns: map<nat, Txn>, w: Worker)
    requires TxnsInv(services, db, txns)
    ensures TxnsInv(services, Finished(db, w), txns)
  {
    forall t | t in txns
      ensures OnTrack(Finished(db, w), txns[t])
    {
      assert OnTrack(db, txns[t]);
      FinishKeepsFresh(db, w, txns[t].orders);
      FinishKeepsSlice(AllNamed(txns[t].orders), txns[t].who, db, w);
      assert Admitted(Finished(db, w), txns[t]);
      TrackElsewhere(db, Finished(db, w), txns[t]);
    }
  }

  lemma WorkersAfterEnd(db: Tables, workers: map<nat, Worker>, w: nat)
    requires WorkersInv(db, workers)
    ensures WorkersInv(db, workers - {w})
  {
    var rest := workers - {w};
    forall v | v in rest
      ensures Holds(db, rest[v])
    {
      assert Holds(db, workers[v]);
    }
    forall u, v | u in rest && v in rest && u != v
      ensures Disjoint(rest[u], rest[v])
    {
      assert Disjoint(workers[u], workers[v]);
    }
  }

  lemma WorkersAfterFinish(db: Tables, workers: map<nat, Worker>, w: nat)
    requires WorkersInv(db, workers) && w in workers
    ensures WorkersInv(Finished(db, workers[w]), workers - {w})
  {
    var rest, worker := workers - {w}, workers[w];
    WorkersAfterEnd(db, workers, w);
    forall v | v in rest
      ensures Holds(Finished(db, worker), rest[v])
    {
      assert Holds(db, workers[v]) && Holds(db, worker) && Disjoint(workers[v], workers[w]);
      HoldsAfterDrain(db, workers[v], worker);
    }
  }

  lemma WorkersAfterMove(db: Tables, workers: map<nat, Worker>, w: nat, worker: Worker)
    requires WorkersInv(db, workers) && Holds(db, worker)
    requires forall v {:trigger Disjoint(worker, workers[v])} | v in workers && v != w :: Disjoint(worker, workers[v])
    ensures WorkersInv(db, workers[w := worker])
  {
    var next := workers[w := worker];
    forall v | v in next
      ensures Holds(db, next[v])
    {
      assert v != w ==> Holds(db, workers[v]);
    }
    forall u, v | u in next && v in next && u != v
      ensures Disjoint(next[u], next[v])
    {
      if v == w {
        assert Disjoint(worker, workers[u]);
      } else if u == w {
        assert Disjoint(worker, workers[v]);
      } else {
        assert Disjoint(workers[u], workers[v]);
      }
    }
  }

  lemma WorkersAfterPut(db: Tables, workers: map<nat, Worker>, w: nat, k: Bucket)
    requires WorkersInv(db, workers) && w in workers && k in Buckets(db.outbox, workers[w].ids)
    requires forall v | v in workers :: k !in workers[v].puts
    ensures WorkersInv(db, workers[w := Put(db, workers[w], k)])
  {
    assert Holds(db, workers[w]);
    forall v | v in workers && v != w
      ensures Disjoint(Put(db, workers[w], k), workers[v])
    {
      assert Disjoint(workers[w], workers[v]);
    }
    WorkersAfterMove(db, workers, w, Put(db, workers[w], k));
  }

  lemma LockOnTrack(db: Tables, service: Service, who: Account, orders: seq<Order>)
    requires Admitted(db, Locked(service, db, who, orders)) && (service.Rust? ==> Balance(db, who) <= MAX_I64)
    ensures OnTrack(db, Locked(service, db, who, orders))
  {
    assert orders[..0] == [];
  }

  lemma TxnsAfterLock(sys: System, t: nat, service: Service, who: Account, orders: seq<Order>)
    requires TxnsInv(sys.services, sys.committed, sys.txns) && Enabled(sys, Lock(t, service, who, orders))
    ensures TxnsInv(sys.services, sys.committed, sys.txns[t := Locked(service, sys.committed, who, orders)])
  {
    var txn := Locked(service, sys.committed, who, orders);
    assert Clocked(service, orders) && Legible(service, sys.committed.ledger);
    LockOnTrack(sys.committed, service, who, orders);
    forall u | u in sys.txns && u != t
      ensures Separate(txn, sys.txns[u])
    {
    }
    TxnsAfterMove(sys.services, sys.committed, sys.txns, t, txn);
  }

  /** A step of a request in flight leaves all else alone. */
  lemma TxnMoveKeepsInv(db: Tables, sys: System, a: Move)
    requires Inv(db, sys) && Enabled(sys, a) && (a.Lock? || a.Decide? || a.Act? || a.Abort?)
    ensures TxnsInv(sys.services, sys.committed, Next(sys, a).txns) && Next(sys, a) == sys.(txns := Next(sys, a).txns)
  {
    var c := sys.committed;
    match a
    case Lock(t, service, who, orders) => TxnsAfterLock(sys, t, service, who, orders);
    case Decide(t) =>
      assert OnTrack(c, sys.txns[t]);
      DecideStaysOnTrack(c, sys.txns[t]);
      TxnsAfterProgress(sys.services, c, sys.txns, t, Decided(c, sys.txns[t]));
    case Act(t) =>
      assert OnTrack(c, sys.txns[t]);
      ActStaysOnTrack(c, sys.txns[t]);
      TxnsAfterProgress(sys.services, c, sys.txns, t, Acted(sys.txns[t]));
    case Abort(t) => TxnsAfterEnd(sys.services, c, sys.txns, t);
  }

  lemma WorkerMoveKeepsInv(sys: System, a: Move)
    requires WorkersInv(sys.committed, sys.workers) && Enabled(sys, a) && (a.Claim? || a.PutRollup? || a.Drop?)
    ensures WorkersInv(sys.committed, Next(sys, a).workers) && Next(sys, a) == sys.(workers := Next(sys, a).workers)
  {
    match a
    case Claim(w, ids) =>
      assert forall v | v in sys.workers :: Disjoint(Worker(ids, map[]), sys.workers[v]);
      WorkersAfterMove(sys.committed, sys.workers, w, Worker(ids, map[]));
    case PutRollup(w, k) => WorkersAfterPut(sys.committed, sys.workers, w, k);
    case Drop(w) => WorkersAfterEnd(sys.committed, sys.workers, w);
  }

  lemma CommitKeepsInv(db: Tables, sys: System, t: nat)
    requires Inv(db, sys) && Enabled(sys, Commit(t))
    ensures Inv(db, Next(sys, Commit(t)))
  {
    assert OnTrack(sys.committed, sys.txns[t]);
    CommitKeepsSerial(db, sys.committed, sys.history, sys.txns[t]);
    TxnsAfterCommit(sys.services, sys.committed, sys.txns, t);
    WorkersAfterCommit(sys.committed, sys.txns[t], sys.workers);
  }

  lemma FinishKeepsInv(db: Tables, sys: System, w: nat)
    requires Inv(db, sys) && Enabled(sys, Finish(w))
    ensures Inv(db, Next(sys, Finish(w)))
  {
    assert Holds(sys.committed, sys.workers[w]);
    FinishKeepsSerial(db, sys.committed, sys.history, sys.workers[w]);
    TxnsAfterFinish(sys.services, sys.committed, sys.txns, sys.workers[w]);
    WorkersAfterFinish(sys.committed, sys.workers, w);
  }

  lemma RecoverChangesNothing(sys: System)
    requires Good(sys.committed)
    ensures Next(sys, Recover) == sys
  {
    NoStaleRows(sys.committed);
    assert SetStatus(sys.committed.outbox, {}, Pending) == sys.committed.outbox;
  }

  lemma MoveKeepsInv(db: Tables, sys: System, a: Move)
    requires Inv(db, sys) && Enabled(sys, a)
    ensures Inv(db, Next(sys, a))
  {
    match a
    case Commit(t) => CommitKeepsInv(db, sys, t);
    case Finish(w) => FinishKeepsInv(db, sys, w);
    case Recover => RecoverChangesNothing(sys);
    case Lock(_, _, _, _) => TxnMoveKeepsInv(db, sys, a);
    case Decide(_) => TxnMoveKeepsInv(db, sys, a);
    case Act(_) => TxnMoveKeepsInv(db, sys, a);
    case Abort(_) => TxnMoveKeepsInv(db, sys, a);
    case Claim(_, _) => WorkerMoveKeepsInv(sys, a);
    case PutRollup(_, _) => WorkerMoveKeepsInv(sys, a);
    case Drop(_) => WorkerMoveKeepsInv(sys, a);
  }

  function Start(services: set<Service>, db: Tables): System {
    System(services, db, map[], map[], [])
  }

  /** A sound start: its times can be read by every service of the database. */
  ghost predicate Starts(services: set<Service>, db: Tables, sys: System) {
    Good(db) && LegibleToAll(services, db.ledger) && sys == Start(services, db)
  }

  /** Which move may lead from which system to which. */
  type Stepping = (System, Move, System) -> bool

  ghost predicate MovesTo(sys: System, a: Move, next: System) {
    Enabled(sys, a) && next == Next(sys, a)
  }

  /** A behavior: the systems passed through, and the moves between them. */
  ghost predicate Behavior(states: seq<System>, moves: seq<Move>) {
    Path(MovesTo, states, moves)
  }

  /** Serializability: however requests and drain workers interleave, with aborts and recoveries anywhere,
      the committed tables are those of running the committed requests and batches one at a time in commit
      order, none of them refused; and every transaction in flight is where serial processing of its
      prefix on the tables committed by now would be. */
  lemma {:induction false} Serializable(
      services: set<Service>, db: Tables, states: seq<System>, moves: seq<Move>, i: nat)
    requires Behavior(states, moves) && Starts(services, db, states[0]) && i < |states|
    ensures Inv(db, states[i])
  {
    if i > 0 {
      Serializable(services, db, states, moves, i - 1);
      assert MovesTo(states[i - 1], moves[i - 1], states[i]);
      MoveKeepsInv(db, states[i - 1], moves[i - 1]);
    }
  }

  /** All outbox rows some batch of the history drained. */
  ghost function DrainedIds(events: seq<Event>): set<nat> {
    if |events| == 0 then {}
    else DrainedIds(events[..|events| - 1]) + if events[|events| - 1].Batch? then events[|events| - 1].ids else {}
  }

  /** No row was drained by two batches. */
  ghost predicate NoRowTwice(events: seq<Event>) {
    |events| == 0
    || (NoRowTwice(events[..|events| - 1])
        && (events[|events| - 1].Batch? ==> events[|events| - 1].ids !! DrainedIds(events[..|events| - 1])))
  }

  ghost predicate ProcessedMeansDrained(rows: seq<OutboxRow>, drained: set<nat>) {
    && (forall i | 0 <= i < |rows| :: rows[i].status == Processed <==> rows[i].id in drained)
    && (forall id | id in drained :: exists i | 0 <= i < |rows| :: rows[i].id == id)
  }

  lemma ServeKeepsDrained(db: Tables, who: Account, orders: seq<Order>, drained: set<nat>)
    requires Good(db) && FreshOrders(db, orders) && Admissible(Open(db, who), who, orders) && Serve(db, who, orders).Done?
    requires ProcessedMeansDrained(db.outbox, drained)
    ensures ProcessedMeansDrained(Serve(db, who, orders).db.outbox, drained)
  {
    ServeKeepsGood(db, who, orders);
    NewRowsPend(Open(db, who), who, orders);
    var before, after := db.outbox, Serve(db, who, orders).db.outbox;
    assert forall i | 0 <= i < |before| :: after[i] == after[..|before|][i];
    forall i | |before| <= i < |after|
      ensures after[i].id !in drained
    {
    }
    forall id | id in drained
      ensures exists i | 0 <= i < |after| :: after[i].id == id
    {
      var j :| 0 <= j < |before| && before[j].id == id;
      assert after[j].id == id;
    }
  }

  lemma DrainKeepsDrained(db: Tables, ids: set<nat>, drained: set<nat>)
    requires Drainable(db, ids) && ProcessedMeansDrained(db.outbox, drained)
    ensures ProcessedMeansDrained(SetStatus(db.outbox, ids, Processed), drained + ids) && ids !! drained
  {
    var after := SetStatus(db.outbox, ids, Processed);
    forall id | id in drained + ids
      ensures exists i | 0 <= i < |after| :: after[i].id == id
    {
      if id in ids {
        var row :| row in db.outbox && row.id == id;
        var j :| 0 <= j < |db.outbox| && db.outbox[j] == row;
        assert after[j].id == id;
      } else {
        var j :| 0 <= j < |db.outbox| && db.outbox[j].id == id;
        assert after[j].id == id;
      }
    }
    forall id | id in ids
      ensures id !in drained
    {
      var row :| row in db.outbox && row.id == id;
      var j :| 0 <= j < |db.outbox| && db.outbox[j] == row;
    }
  }

  /** Exactly once: in every run a row is processed iff one batch drained it, and none drained it twice. */
  lemma {:induction false} DrainedOnce(db: Tables, events: seq<Event>)
    requires Good(db) && db.outbox == [] && ValidRun(db, events)
    ensures NoRowTwice(events) && ProcessedMeansDrained(Run(db, events).outbox, DrainedIds(events))
  {
    if |events| > 0 {
      var n := |events| - 1;
      var mid := Run(db, events[..n]);
      DrainedOnce(db, events[..n]);
      RunKeepsGood(db, events[..n]);
      match events[n]
      case Request(who, orders) =>
        if Serve(mid, who, orders).Done? {
          ServeKeepsDrained(mid, who, orders, DrainedIds(events[..n]));
        }
      case Batch(ids) => DrainKeepsDrained(mid, ids, DrainedIds(events[..n]));
    }
  }

  lemma ClaimsAreDisjoint(db: Tables, workers: map<nat, Worker>)
    requires WorkersInv(db, workers)
    ensures forall v, w | v in workers && w in workers && v != w :: workers[v].ids !! workers[w].ids
    ensures forall w | w in workers :: workers[w].ids <= PendingIds(db.outbox)
  {
    forall v, w | v in workers && w in workers && v != w
      ensures workers[v].ids !! workers[w].ids
    {
      assert Disjoint(workers[v], workers[w]);
    }
    forall w | w in workers
      ensures workers[w].ids <= PendingIds(db.outbox)
    {
      assert Holds(db, workers[w]);
    }
  }

  /** Exactly-once drain under concurrent workers and aborts: claims in flight are disjoint sets of pending
      rows, no committed row is 'processing', a row is processed iff exactly one committed batch drained
      it, and the rollup is the sum of the processed rows. */
  lemma ExactlyOnce(
      services: set<Service>, db: Tables, states: seq<System>, moves: seq<Move>, i: nat,
      f: iset<Bucket>, m: Measure)
    requires Behavior(states, moves) && Starts(services, db, states[0]) && db.outbox == [] && i < |states|
    ensures var sys := states[i];
      && (forall v, w | v in sys.workers && w in sys.workers && v != w :: sys.workers[v].ids !! sys.workers[w].ids)
      && (forall w | w in sys.workers :: sys.workers[w].ids <= PendingIds(sys.committed.outbox))
      && ProcessingIds(sys.committed.outbox) == {}
      && NoRowTwice(sys.history) && ProcessedMeansDrained(sys.committed.outbox, DrainedIds(sys.history))
      && RollupSum(sys.committed.rollup, f, m) == OutboxSum(sys.committed.outbox, f, {Processed}, m)
  {
    Serializable(services, db, states, moves, i);
    DrainedOnce(db, states[i].history);
    ClaimsAreDisjoint(states[i].committed, states[i].workers);
    NoStaleRows(states[i].committed);
  }

  /** Safety at every moment of every interleaving: no balance is negative, each is its opening plus the
      account's deltas, and rollup plus undrained outbox is the report recomputed from the ledger. */
  lemma AlwaysReconciled(
      services: set<Service>, db: Tables, states: seq<System>, moves: seq<Move>, i: nat,
      a: Account, f: iset<Bucket>, m: Measure)
    requires Behavior(states, moves) && Starts(services, db, states[0]) && i < |states|
    ensures var now := states[i].committed;
      && Balance(now, a) >= 0
      && Balance(now, a) == Opening(db, a) + DeltaSum(now.ledger, iset{a})
      && Reported(now, f, m) == LedgerSum(now.ledger, f, m)
  {
    Serializable(services, db, states, moves, i);
    RunConserves(db, states[i].history, a);
    RollupPlusUndrained(states[i].committed, f, m);
  }

  lemma CommitStaysInRange(db: Tables, t: Txn, a: Account)
    requires OnTrack(db, t) && t.done == |t.orders| && t.service.Rust? && Balance(db, a) <= MAX_I64
    ensures Balance(View(db, t), a) <= MAX_I64
  {
    assert t.orders[..t.done] == t.orders;
    if a != t.who {
      CommitIsServe(db, t);
      NamedOutside([], t.orders);
      ServeElsewhere(AllNamed([]), a, db, t.who, t.orders);
    }
  }

  lemma MoveStaysInRange(sys: System, move: Move, a: Account)
    requires Enabled(sys, move) && TxnsInv(sys.services, sys.committed, sys.txns)
    requires sys.services == {Rust} && Balance(sys.committed, a) <= MAX_I64
    ensures Balance(Next(sys, move).committed, a) <= MAX_I64 && Next(sys, move).services == {Rust}
  {
    if move.Commit? {
      assert Fits(sys.services, sys.txns[move.t]) && OnTrack(sys.committed, sys.txns[move.t]);
      CommitStaysInRange(sys.committed, sys.txns[move.t], a);
    }
  }

  // What the invariant says about the transactions, at one state of a behavior.
  lemma TxnsAt(services: set<Service>, db: Tables, states: seq<System>, moves: seq<Move>, i: nat)
    requires Behavior(states, moves) && Starts(services, db, states[0]) && i < |states|
    ensures TxnsInv(states[i].services, states[i].committed, states[i].txns)
  {
    Serializable(services, db, states, moves, i);
  }

  /** Where the Rust service alone serves the database, no interleaving takes a balance above 2^63-1, so the
      `bigint` it reads is always the balance. */
  lemma {:induction false} BalancesStayInRange(db: Tables, states: seq<System>, moves: seq<Move>, i: nat, a: Account)
    requires Behavior(states, moves) && Starts({Rust}, db, states[0]) && Balance(db, a) <= MAX_I64 && i < |states|
    ensures Balance(states[i].committed, a) <= MAX_I64 && states[i].services == {Rust}
  {
    if i > 0 {
      BalancesStayInRange(db, states, moves, i - 1, a);
      TxnsAt({Rust}, db, states, moves, i - 1);
      assert MovesTo(states[i - 1], moves[i - 1], states[i]);
      MoveStaysInRange(states[i - 1], moves[i - 1], a);
    }
  }
}
