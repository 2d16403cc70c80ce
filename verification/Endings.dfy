/** How requests and drain workers come to an end: what a commit, an abort, a finish and a crash release, and that
    whatever commits has held its locks from the start. */
module Endings {
  import opened Schema
  import opened Wallet
  import opened Rollup
  import opened Reconciliation
  import opened Runs
  import opened Slices
  import opened Services
  import opened Transactions
  import opened RtpOutbox
  import opened Concurrent

  /** Only `t` is gone, and with it the lock on `who`. */
  ghost predicate Released(before: map<nat, Txn>, after: map<nat, Txn>, t: nat, who: Account) {
    && t !in after && (forall u | u in before && u != t :: u in after && after[u] == before[u])
    && (forall u | u in after :: u in before && after[u].who != who)
  }

  lemma LeavesReleased(services: set<Service>, db: Tables, txns: map<nat, Txn>, t: nat)
    requires TxnsInv(services, db, txns) && t in txns
    ensures Released(txns, txns - {t}, t, txns[t].who)
  {
    forall u | u in txns && u != t
      ensures txns[u].who != txns[t].who
    {
      assert Separate(txns[t], txns[u]);
    }
  }

  // What a request in flight brought with it, it could bring again.
  lemma ArrivesAgain(sys: System, next: System, t: nat)
    requires TxnsInv(sys.services, sys.committed, sys.txns) && t in sys.txns && next == sys.(txns := sys.txns - {t})
    ensures var txn := sys.txns[t];
      Arrives(next, txn.service, txn.who, txn.orders) && NamesApart(next, txn.who, txn.orders)
  {
    var txn := sys.txns[t];
    assert Fits(sys.services, txn) && OnTrack(sys.committed, txn);
    if txn.service.Rust? {
      StartsInRange(Open(sys.committed, txn.who), txn.who, txn.orders[..txn.done]);
    }
    forall u | u in next.txns
      ensures StampsApart(txn.orders, next.txns[u].orders) && AllNamed(txn.orders) !! AllNamed(next.txns[u].orders)
    {
      assert Separate(sys.txns[t], sys.txns[u]);
    }
  }

  /** ROLLBACK can come at any time. The transaction is gone and cannot commit any more; everything committed, and
      every other transaction and worker, stays as it is; its account lock is free, and the very same request can
      take it again. */
  lemma AbortEnds(sys: System, t: nat)
    requires TxnsInv(sys.services, sys.committed, sys.txns) && t in sys.txns
    ensures Enabled(sys, Abort(t))
    ensures var next, txn := Next(sys, Abort(t)), sys.txns[t];
      && Released(sys.txns, next.txns, t, txn.who) && next == sys.(txns := next.txns)
      && !Feasible(next, Commit(t)) && Enabled(next, Lock(t, txn.service, txn.who, txn.orders))
  {
    LeavesReleased(sys.services, sys.committed, sys.txns, t);
    ArrivesAgain(sys, Next(sys, Abort(t)), t);
  }

  /** COMMIT comes once, when every action is done. The tables become those of serving the request now, the history
      gets that request, and only this transaction is gone, with its lock. */
  lemma CommitEnds(sys: System, t: nat)
    requires TxnsInv(sys.services, sys.committed, sys.txns) && t in sys.txns
    ensures Enabled(sys, Commit(t)) <==> sys.txns[t].done == |sys.txns[t].orders|
    ensures Enabled(sys, Commit(t)) ==>
      var next, txn := Next(sys, Commit(t)), sys.txns[t];
      && Released(sys.txns, next.txns, t, txn.who)
      && Serve(sys.committed, txn.who, txn.orders) == Done(next.committed, txn.replies)
      && next.history == sys.history + [Request(txn.who, txn.orders)]
      && next.workers == sys.workers && next.services == sys.services && !Feasible(next, Commit(t))
  {
    LeavesReleased(sys.services, sys.committed, sys.txns, t);
    assert OnTrack(sys.committed, sys.txns[t]);
    if Enabled(sys, Commit(t)) {
      CommitIsServe(sys.committed, sys.txns[t]);
    }
  }

  /** A transaction is never stuck: unless its next action is refused, it can take the next step of its request. */
  lemma TxnCanGoOn(sys: System, t: nat)
    requires TxnsInv(sys.services, sys.committed, sys.txns) && t in sys.txns
    ensures sys.txns[t].verdict == Some(Refusal) || Enabled(sys, Decide(t)) || Enabled(sys, Act(t)) || Enabled(sys, Commit(t))
  {
    assert OnTrack(sys.committed, sys.txns[t]);
  }

  /** Only `w` is gone, and no other worker holds any of its outbox or rollup rows. */
  ghost predicate LetGo(before: map<nat, Worker>, after: map<nat, Worker>, w: nat)
    requires w in before
  {
    && w !in after && (forall v | v in before && v != w :: v in after && after[v] == before[v])
    && (forall v | v in after :: v in before && after[v].ids !! before[w].ids && after[v].puts.Keys !! before[w].puts.Keys)
  }

  lemma LeavesLetGo(db: Tables, workers: map<nat, Worker>, w: nat)
    requires WorkersInv(db, workers) && w in workers
    ensures LetGo(workers, workers - {w}, w)
  {
    forall v | v in workers && v != w
      ensures workers[v].ids !! workers[w].ids && workers[v].puts.Keys !! workers[w].puts.Keys
    {
      assert Disjoint(workers[v], workers[w]);
    }
  }

  /** A worker can crash at any time. It is gone and cannot finish any more; everything committed, and every other
      worker and transaction, stays as it is; what it held is free, and another worker can claim the very same
      rows and write the very same rollup rows. */
  lemma DropEnds(sys: System, w: nat)
    requires WorkersInv(sys.committed, sys.workers) && w in sys.workers
    ensures Enabled(sys, Drop(w))
    ensures var next := Next(sys, Drop(w));
      && LetGo(sys.workers, next.workers, w) && next == sys.(workers := next.workers)
      && !Feasible(next, Finish(w)) && Enabled(next, Claim(w, sys.workers[w].ids))
      && forall k | k in sys.workers[w].puts :: Enabled(Next(next, Claim(w, sys.workers[w].ids)), PutRollup(w, k))
  {
    LeavesLetGo(sys.committed, sys.workers, w);
    assert Holds(sys.committed, sys.workers[w]);
    WritableAgain(Next(sys, Drop(w)), w, sys.workers[w]);
  }

  // Rollup rows that nobody holds can be written by whoever claims the outbox rows.
  lemma WritableAgain(sys: System, w: nat, worker: Worker)
    requires Enabled(sys, Claim(w, worker.ids)) && worker.puts.Keys <= Buckets(sys.committed.outbox, worker.ids)
    requires forall v | v in sys.workers :: sys.workers[v].puts.Keys !! worker.puts.Keys
    ensures forall k | k in worker.puts :: Enabled(Next(sys, Claim(w, worker.ids)), PutRollup(w, k))
  {
  }

  /** A worker finishes once, when all its rollup rows are written. The batch of its rows is committed, and with it
      they are pending no more; the history gets that batch, and only this worker is gone, with its locks. */
  lemma FinishEnds(sys: System, w: nat)
    requires WorkersInv(sys.committed, sys.workers) && w in sys.workers && Enabled(sys, Finish(w))
    ensures var next, worker := Next(sys, Finish(w)), sys.workers[w];
      && LetGo(sys.workers, next.workers, w)
      && next.committed == DrainBatch(sys.committed, worker.ids)
      && PendingIds(next.committed.outbox) == PendingIds(sys.committed.outbox) - worker.ids
      && next.history == sys.history + [Batch(worker.ids)]
      && next.txns == sys.txns && next.services == sys.services && !Feasible(next, Finish(w))
  {
    LeavesLetGo(sys.committed, sys.workers, w);
    assert Holds(sys.committed, sys.workers[w]);
    FinishIsDrain(sys.committed, sys.workers[w]);
    PendingAfter(sys.committed.outbox, sys.workers[w].ids);
  }

  /** A worker is never stuck but on the locks of another: it can finish, or write a rollup row, or every row it
      has still to write is held by somebody else. */
  lemma WorkerCanGoOn(sys: System, w: nat)
    requires WorkersInv(sys.committed, sys.workers) && w in sys.workers
    ensures var left := Buckets(sys.committed.outbox, sys.workers[w].ids) - sys.workers[w].puts.Keys;
      && (left == {} ==> Enabled(sys, Finish(w)))
      && forall k | k in left :: Enabled(sys, PutRollup(w, k)) || exists v | v in sys.workers && v != w :: k in sys.workers[v].puts
  {
    var all, written := Buckets(sys.committed.outbox, sys.workers[w].ids), sys.workers[w].puts.Keys;
    assert Holds(sys.committed, sys.workers[w]);
    if all - written == {} {
      assert forall k | k in all && k !in written :: k in all - written;
    }
  }

  /** Recovery of stale rows can run at any time, and puts back to pending what is 'processing' and nothing else. */
  lemma RecoverResets(sys: System)
    requires DistinctIds(sys.committed.outbox)
    ensures Enabled(sys, Recover)
    ensures var next, rows := Next(sys, Recover), sys.committed.outbox;
      && next == sys.(committed := sys.committed.(outbox := next.committed.outbox)) && |next.committed.outbox| == |rows|
      && forall i | 0 <= i < |rows| ::
           next.committed.outbox[i] == if rows[i].status == Processing then rows[i].(status := Pending) else rows[i]
  {
    var rows := sys.committed.outbox;
    forall i | 0 <= i < |rows|
      ensures rows[i].id in ProcessingIds(rows) <==> rows[i].status == Processing
    {
      if rows[i].id in ProcessingIds(rows) {
        var j :| 0 <= j < |rows| && rows[j].status == Processing && rows[j].id == rows[i].id;
      }
      assert rows[i] in rows;
    }
  }

  /** Transaction `t` was begun by move `i`, and nothing ended it before move `j`. */
  ghost predicate Holding(moves: seq<Move>, i: nat, j: nat, t: nat, txn: Txn) {
    && i < j <= |moves| && moves[i] == Lock(t, txn.service, txn.who, txn.orders)
    && forall k | i < k < j :: moves[k] != Commit(t) && moves[k] != Abort(t) && !(moves[k].Lock? && moves[k].t == t)
  }

  // The last move left `t` in flight: it was its lock, or it was there before.
  lemma StillInFlight(states: seq<System>, moves: seq<Move>, j: nat, t: nat)
    requires Behavior(states, moves) && j < |moves| && t in states[j + 1].txns
    ensures var before, move, now := states[j].txns, moves[j], states[j + 1].txns[t];
      move == Lock(t, now.service, now.who, now.orders)
      || (t in before && before[t].service == now.service && before[t].who == now.who && before[t].orders == now.orders
          && move != Commit(t) && move != Abort(t) && !(move.Lock? && move.t == t))
  {
    assert MovesTo(states[j], moves[j], states[j + 1]);
  }

  /** A transaction in flight is the request that its lock was taken for. */
  lemma {:induction false} InFlightSinceLock(states: seq<System>, moves: seq<Move>, j: nat, t: nat) returns (i: nat)
    requires Behavior(states, moves) && states[0].txns == map[] && j < |states| && t in states[j].txns
    ensures Holding(moves, i, j, t, states[j].txns[t])
  {
    StillInFlight(states, moves, j - 1, t);
    var now := states[j].txns[t];
    if moves[j - 1] == Lock(t, now.service, now.who, now.orders) {
      i := j - 1;
    } else {
      i := InFlightSinceLock(states, moves, j - 1, t);
    }
  }

  /** In every behavior, what a commit adds to the history is the request that some earlier lock was taken for, and
      between the two there is no abort, no other commit and no other lock of that transaction. */
  lemma CommitFollowsLock(states: seq<System>, moves: seq<Move>, j: nat, t: nat) returns (i: nat)
    requires Behavior(states, moves) && states[0].txns == map[] && j < |moves| && moves[j] == Commit(t)
    ensures i < j && moves[i].Lock? && moves[i].t == t
    ensures forall k | i < k < j :: moves[k] != Commit(t) && moves[k] != Abort(t) && !(moves[k].Lock? && moves[k].t == t)
    ensures states[j + 1].history == states[j].history + [Request(moves[i].who, moves[i].orders)]
  {
    assert MovesTo(states[j], moves[j], states[j + 1]);
    i := InFlightSinceLock(states, moves, j, t);
  }

  ghost predicate Working(moves: seq<Move>, i: nat, j: nat, w: nat, ids: set<nat>) {
    && i < j <= |moves| && moves[i] == Claim(w, ids)
    && forall k | i < k < j :: moves[k] != Finish(w) && moves[k] != Drop(w) && !(moves[k].Claim? && moves[k].w == w)
  }

  lemma StillInWork(states: seq<System>, moves: seq<Move>, j: nat, w: nat)
    requires Behavior(states, moves) && j < |moves| && w in states[j + 1].workers
    ensures var before, move, now := states[j].workers, moves[j], states[j + 1].workers[w];
      move == Claim(w, now.ids)
      || (w in before && before[w].ids == now.ids && move != Finish(w) && move != Drop(w) && !(move.Claim? && move.w == w))
  {
    assert MovesTo(states[j], moves[j], states[j + 1]);
  }

  lemma {:induction false} InWorkSinceClaim(states: seq<System>, moves: seq<Move>, j: nat, w: nat) returns (i: nat)
    requires Behavior(states, moves) && states[0].workers == map[] && j < |states| && w in states[j].workers
    ensures Working(moves, i, j, w, states[j].workers[w].ids)
  {
    StillInWork(states, moves, j - 1, w);
    if moves[j - 1] == Claim(w, states[j].workers[w].ids) {
      i := j - 1;
    } else {
      i := InWorkSinceClaim(states, moves, j - 1, w);
    }
  }

  /** The batch a worker commits is the one it claimed, and it has not crashed since. */
  lemma FinishFollowsClaim(states: seq<System>, moves: seq<Move>, j: nat, w: nat) returns (i: nat)
    requires Behavior(states, moves) && states[0].workers == map[] && j < |moves| && moves[j] == Finish(w)
    ensures i < j && moves[i].Claim? && moves[i].w == w
    ensures forall k | i < k < j :: moves[k] != Finish(w) && moves[k] != Drop(w) && !(moves[k].Claim? && moves[k].w == w)
    ensures states[j + 1].history == states[j].history + [Batch(moves[i].ids)]
  {
    assert MovesTo(states[j], moves[j], states[j + 1]);
    i := InWorkSinceClaim(states, moves, j, w);
  }

  /** Nothing else is ever added: the history grows by commits and finished batches alone. */
  lemma OthersAddNothing(states: seq<System>, moves: seq<Move>, j: nat)
    requires Behavior(states, moves) && j < |moves| && !moves[j].Commit? && !moves[j].Finish?
    ensures states[j + 1].history == states[j].history
  {
    assert MovesTo(states[j], moves[j], states[j + 1]);
  }
}
