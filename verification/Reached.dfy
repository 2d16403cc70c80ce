/** The other half of serializability: every run in which each request is served is reached by some behavior, so the
    histories of the interleaved system are exactly those runs. */
module Reached {
  import opened Schema
  import opened Wallet
  import opened Rollup
  import opened Runs
  import opened Services
  import opened RustProcessor
  import opened Transactions
  import opened Concurrent
  import opened Paths

  /** The relation leaves out none of the steps a request takes after its lock. */
  ghost predicate Serving(step: Stepping) {
    forall sys, a {:trigger Enabled(sys, a)} | Enabled(sys, a) && (a.Decide? || a.Act? || a.Commit?) ::
      step(sys, a, Next(sys, a))
  }

  lemma Goes(step: Stepping, from: System, sys: System, a: Move)
    requires Reaches(step, from, sys) && Enabled(sys, a) && step(sys, a, Next(sys, a))
    ensures Reaches(step, from, Next(sys, a))
  {
    Further(step, from, sys, a, Next(sys, a));
  }

  lemma GoesOn(step: Stepping, from: System, sys: System, a: Move)
    requires Serving(step) && Reaches(step, from, sys) && Enabled(sys, a) && (a.Decide? || a.Act? || a.Commit?)
    ensures Reaches(step, from, Next(sys, a))
  {
    Goes(step, from, sys, a);
  }

  /** The service accepts the request, as things stand. */
  ghost predicate ServedBy(service: Service, db: Tables, who: Account, orders: seq<Order>) {
    match service
    case TypeScript => Validated(orders) && Serve(db, who, orders).Done?
    case Rust => Balance(db, who) <= MAX_I64 && Serve64(db, who, orders).Done64?
  }

  // A transaction whose request is served does not refuse its next action.
  lemma NotRefused(db: Tables, t: Txn)
    requires OnTrack(db, t) && t.done < |t.orders| && ServedBy(t.service, db, t.who, t.orders)
    ensures OnTrack(db, Decided(db, t)) && !Decided(db, t).verdict.value.Refusal?
  {
    DecideStaysOnTrack(db, t);
    if Decided(db, t).verdict.value.Refusal? {
      RefusalIsRefused(db, Decided(db, t));
    }
  }

  function With(sys: System, t: Txn): System {
    sys.(txns := map[0 := t])
  }

  lemma Decides(sys: System, t: Txn)
    requires t.done < |t.orders| && t.verdict == None
    ensures Enabled(With(sys, t), Decide(0)) && Next(With(sys, t), Decide(0)) == With(sys, Decided(sys.committed, t))
  {
    assert map[0 := t][0 := Decided(sys.committed, t)] == map[0 := Decided(sys.committed, t)];
  }

  lemma DecisionIsReached(step: Stepping, from: System, sys: System, t: Txn)
    requires Serving(step) && Reaches(step, from, With(sys, t)) && t.done < |t.orders| && t.verdict == None
    ensures Reaches(step, from, With(sys, Decided(sys.committed, t)))
  {
    Decides(sys, t);
    GoesOn(step, from, With(sys, t), Decide(0));
  }

  lemma ActIsReached(step: Stepping, from: System, sys: System, t: Txn)
    requires Serving(step) && Reaches(step, from, With(sys, t)) && t.done < |t.orders|
    requires t.verdict.Some? && !t.verdict.value.Refusal?
    ensures Reaches(step, from, With(sys, Acted(t)))
  {
    GoesOn(step, from, With(sys, t), Act(0));
    assert map[0 := t][0 := Acted(t)] == map[0 := Acted(t)];
  }

  lemma CommitIsReached(step: Stepping, from: System, sys: System, t: Txn)
    requires Serving(step) && Reaches(step, from, With(sys, t)) && t.done == |t.orders|
    ensures Reaches(step, from,
      sys.(committed := View(sys.committed, t), txns := map[], history := sys.history + [Request(t.who, t.orders)]))
  {
    GoesOn(step, from, With(sys, t), Commit(0));
    assert map[0 := t] - {0} == map[];
  }

  /** Whatever is served is reached: a request that a service accepts can run alone to its commit. */
  lemma ServedIsReached(step: Stepping, from: System, sys: System, service: Service, who: Account, orders: seq<Order>)
    requires Serving(step) && Reaches(step, from, sys) && sys.txns == map[] && Arrives(sys, service, who, orders)
    requires step(sys, Lock(0, service, who, orders), With(sys, Locked(service, sys.committed, who, orders)))
    requires LegibleToAll(sys.services, sys.committed.ledger) && ServedBy(service, sys.committed, who, orders)
    ensures Serve(sys.committed, who, orders).Done?
    ensures Reaches(step, from,
      sys.(committed := Serve(sys.committed, who, orders).db, history := sys.history + [Request(who, orders)]))
  {
    var c := sys.committed;
    var t := Locked(service, c, who, orders);
    assert OnTrack(c, t) by {
      assert Clocked(service, orders) && Legible(service, c.ledger);
      LockOnTrack(c, service, who, orders);
    }
    Further(step, from, sys, Lock(0, service, who, orders), With(sys, t));
    for k := 0 to |orders|
      invariant OnTrack(c, t) && t.done == k && t.verdict == None
      invariant t.service == service && t.who == who && t.orders == orders
      invariant Reaches(step, from, With(sys, t))
    {
      NotRefused(c, t);
      ActStaysOnTrack(c, Decided(c, t));
      DecisionIsReached(step, from, sys, t);
      ActIsReached(step, from, sys, Decided(c, t));
      t := Acted(Decided(c, t));
    }
    CommitIsServe(c, t);
    CommitIsReached(step, from, sys, t);
  }

  function Working(sys: System, w: Worker): System {
    sys.(workers := map[0 := w])
  }

  lemma ClaimIsReached(from: System, sys: System, ids: set<nat>)
    requires Reaches(MovesTo, from, sys) && sys.workers == map[] && ids <= PendingIds(sys.committed.outbox)
    ensures Reaches(MovesTo, from, Working(sys, Worker(ids, map[])))
  {
    Goes(MovesTo, from, sys, Claim(0, ids));
    assert sys.workers[0 := Worker(ids, map[])] == map[0 := Worker(ids, map[])];
  }

  lemma Puts(sys: System, w: Worker, k: Bucket)
    requires k in Buckets(sys.committed.outbox, w.ids) && k !in w.puts
    ensures Enabled(Working(sys, w), PutRollup(0, k))
    ensures Next(Working(sys, w), PutRollup(0, k)) == Working(sys, Put(sys.committed, w, k))
  {
    assert map[0 := w][0 := Put(sys.committed, w, k)] == map[0 := Put(sys.committed, w, k)];
  }

  lemma PutIsReached(from: System, sys: System, w: Worker, k: Bucket)
    requires Reaches(MovesTo, from, Working(sys, w)) && k in Buckets(sys.committed.outbox, w.ids) && k !in w.puts
    ensures Reaches(MovesTo, from, Working(sys, Put(sys.committed, w, k)))
  {
    Puts(sys, w, k);
    Goes(MovesTo, from, Working(sys, w), PutRollup(0, k));
  }

  lemma HoldsAfterPut(db: Tables, w: Worker, k: Bucket)
    requires Holds(db, w) && k in Buckets(db.outbox, w.ids) && k !in w.puts
    ensures Holds(db, Put(db, w, k))
  {
  }

  lemma PutKeys(db: Tables, w: Worker, k: Bucket)
    ensures Put(db, w, k).ids == w.ids && Put(db, w, k).puts.Keys == w.puts.Keys + {k}
  {
  }

  lemma OneLeft(all: set<Bucket>, written: set<Bucket>) returns (k: Bucket)
    requires written <= all && written != all
    ensures k in all && k !in written && |all - (written + {k})| < |all - written|
  {
    k :| k in all && k !in written;
    assert all - (written + {k}) == (all - written) - {k};
  }

  function Drained(sys: System, ids: set<nat>): System {
    sys.(committed := DrainBatch(sys.committed, ids), workers := map[], history := sys.history + [Batch(ids)])
  }

  lemma FinishedIsBatch(db: Tables, w: Worker)
    requires Holds(db, w) && w.puts.Keys == Buckets(db.outbox, w.ids)
    ensures Finished(db, w) == DrainBatch(db, w.ids)
  {
    FinishIsDrain(db, w);
  }

  lemma FinishIsReached(from: System, sys: System, w: Worker)
    requires Reaches(MovesTo, from, Working(sys, w)) && w.puts.Keys == Buckets(sys.committed.outbox, w.ids)
    ensures Reaches(MovesTo, from,
      sys.(committed := Finished(sys.committed, w), workers := map[], history := sys.history + [Batch(w.ids)]))
  {
    Goes(MovesTo, from, Working(sys, w), Finish(0));
    assert map[0 := w] - {0} == map[];
  }

  lemma OnePut(from: System, sys: System, w: Worker) returns (next: Worker)
    requires Reaches(MovesTo, from, Working(sys, w)) && Holds(sys.committed, w)
    requires w.puts.Keys != Buckets(sys.committed.outbox, w.ids)
    ensures next.ids == w.ids && Reaches(MovesTo, from, Working(sys, next)) && Holds(sys.committed, next)
    ensures |Buckets(sys.committed.outbox, w.ids) - next.puts.Keys| < |Buckets(sys.committed.outbox, w.ids) - w.puts.Keys|
  {
    var k := OneLeft(Buckets(sys.committed.outbox, w.ids), w.puts.Keys);
    next := Put(sys.committed, w, k);
    PutKeys(sys.committed, w, k);
    HoldsAfterPut(sys.committed, w, k);
    PutIsReached(from, sys, w, k);
  }

  // The rollup rows a worker has still to write can be written one by one.
  lemma {:induction false} RestIsReached(from: System, sys: System, w: Worker)
    requires Reaches(MovesTo, from, Working(sys, w)) && Holds(sys.committed, w)
    ensures Reaches(MovesTo, from, Drained(sys, w.ids))
    decreases |Buckets(sys.committed.outbox, w.ids) - w.puts.Keys|
  {
    if w.puts.Keys == Buckets(sys.committed.outbox, w.ids) {
      FinishedIsBatch(sys.committed, w);
      FinishIsReached(from, sys, w);
    } else {
      var next := OnePut(from, sys, w);
      RestIsReached(from, sys, next);
    }
  }

  /** A batch of pending rows can run alone to its end. */
  lemma BatchIsReached(from: System, sys: System, ids: set<nat>)
    requires Reaches(MovesTo, from, sys) && sys.workers == map[] && ids <= PendingIds(sys.committed.outbox)
    ensures Reaches(MovesTo, from, Drained(sys, ids))
  {
    ClaimIsReached(from, sys, ids);
    RestIsReached(from, sys, Worker(ids, map[]));
  }

  /** Some service of the database serves the request with readable times and fresh draws; a batch takes pending rows. */
  ghost predicate Servable(services: set<Service>, db: Tables, e: Event) {
    match e
    case Request(who, orders) =>
      && FreshOrders(db, orders) && ClockedForAll(services, orders)
      && exists service | service in services :: ServedBy(service, db, who, orders)
    case Batch(ids) => ids <= PendingIds(db.outbox)
  }

  ghost predicate AllServable(services: set<Service>, db: Tables, events: seq<Event>) {
    |events| == 0
    || (AllServable(services, db, events[..|events| - 1])
        && Servable(services, Run(db, events[..|events| - 1]), events[|events| - 1]))
  }

  lemma ReachedKeepsInv(services: set<Service>, db: Tables, start: System, sys: System)
    requires Starts(services, db, start) && Reaches(MovesTo, start, sys)
    ensures Inv(db, sys)
  {
    var states: seq<System>, moves: seq<Move> :| Leads(MovesTo, states, moves, start, sys);
    Serializable(services, db, states, moves, |moves|);
  }

  /** Nothing in flight, and the events of the history committed. */
  function Idle(services: set<Service>, db: Tables, events: seq<Event>): System {
    System(services, Run(db, events), map[], map[], events)
  }

  lemma LockMoves(sys: System, service: Service, who: Account, orders: seq<Order>)
    requires sys.txns == map[] && Arrives(sys, service, who, orders)
    ensures MovesTo(sys, Lock(0, service, who, orders), With(sys, Locked(service, sys.committed, who, orders)))
  {
    var t := Locked(service, sys.committed, who, orders);
    assert sys.txns[0 := t] == map[0 := t];
  }

  lemma RequestIsReached(services: set<Service>, db: Tables, start: System, sys: System, who: Account, orders: seq<Order>)
    requires Starts(services, db, start) && Reaches(MovesTo, start, sys) && sys.services == services && sys.txns == map[]
    requires Servable(services, sys.committed, Request(who, orders))
    ensures Reaches(MovesTo, start,
      sys.(committed := Step(sys.committed, Request(who, orders)), history := sys.history + [Request(who, orders)]))
  {
    ReachedKeepsInv(services, db, start, sys);
    var service :| service in services && ServedBy(service, sys.committed, who, orders);
    LockMoves(sys, service, who, orders);
    ServedIsReached(MovesTo, start, sys, service, who, orders);
  }

  lemma EventIsReached(services: set<Service>, db: Tables, start: System, events: seq<Event>, e: Event)
    requires Starts(services, db, start) && Reaches(MovesTo, start, Idle(services, db, events))
    requires Servable(services, Run(db, events), e)
    ensures Reaches(MovesTo, start, Idle(services, db, events + [e]))
  {
    RunNext(db, events, e);
    match e
    case Batch(ids) => BatchIsReached(start, Idle(services, db, events), ids);
    case Request(who, orders) => RequestIsReached(services, db, start, Idle(services, db, events), who, orders);
  }

  lemma LastIsReached(services: set<Service>, db: Tables, start: System, events: seq<Event>)
    requires Starts(services, db, start) && |events| > 0
    requires Servable(services, Run(db, events[..|events| - 1]), events[|events| - 1])
    requires Reaches(MovesTo, start, Idle(services, db, events[..|events| - 1]))
    ensures Reaches(MovesTo, start, Idle(services, db, events))
  {
    EventIsReached(services, db, start, events[..|events| - 1], events[|events| - 1]);
    assert events[..|events| - 1] + [events[|events| - 1]] == events;
  }

  /** Every servable run is the history of some behavior. */
  lemma {:induction false} RunIsReached(services: set<Service>, db: Tables, start: System, events: seq<Event>)
    requires Starts(services, db, start) && AllServable(services, db, events)
    ensures Reaches(MovesTo, start, Idle(services, db, events))
  {
    if |events| == 0 {
      Stays(MovesTo, start);
    } else {
      RunIsReached(services, db, start, events[..|events| - 1]);
      LastIsReached(services, db, start, events);
    }
  }

  lemma CommitIsServable(sys: System, t: nat)
    requires TxnsInv(sys.services, sys.committed, sys.txns) && Enabled(sys, Commit(t))
    ensures Servable(sys.services, sys.committed, Request(sys.txns[t].who, sys.txns[t].orders))
  {
    var txn := sys.txns[t];
    assert Fits(sys.services, txn) && OnTrack(sys.committed, txn);
    CommitIsServe(sys.committed, txn);
    if txn.service.Rust? {
      StartsInRange(Open(sys.committed, txn.who), txn.who, txn.orders[..txn.done]);
    }
    assert ServedBy(txn.service, sys.committed, txn.who, txn.orders);
  }

  lemma MoveAddsServable(db: Tables, sys: System, a: Move, next: System)
    requires Inv(db, sys) && MovesTo(sys, a, next) && AllServable(sys.services, db, sys.history)
    ensures AllServable(sys.services, db, next.history) && next.services == sys.services
  {
    if a.Commit? {
      CommitIsServable(sys, a.t);
      assert next.history[..|next.history| - 1] == sys.history;
    } else if a.Finish? {
      assert Holds(sys.committed, sys.workers[a.w]);
      assert next.history[..|next.history| - 1] == sys.history;
    }
  }

  lemma StepAddsServable(services: set<Service>, db: Tables, states: seq<System>, moves: seq<Move>, i: nat)
    requires Behavior(states, moves) && Starts(services, db, states[0]) && i < |moves|
    requires states[i].services == services && AllServable(services, db, states[i].history)
    ensures states[i + 1].services == services && AllServable(services, db, states[i + 1].history)
  {
    Serializable(services, db, states, moves, i);
    MoveAddsServable(db, states[i], moves[i], states[i + 1]);
  }

  /** And every history is a servable run. */
  lemma {:induction false} HistoryIsServable(
      services: set<Service>, db: Tables, states: seq<System>, moves: seq<Move>, i: nat)
    requires Behavior(states, moves) && Starts(services, db, states[0]) && i < |states|
    ensures states[i].services == services && AllServable(services, db, states[i].history)
  {
    if i > 0 {
      HistoryIsServable(services, db, states, moves, i - 1);
      StepAddsServable(services, db, states, moves, i - 1);
    }
  }

  /** What the interleaved system commits, exactly: a list of requests and batches is the history of some behavior iff,
      run one at a time in that order, every request is served by some service of the database and every batch
      takes pending rows. */
  lemma HistoriesAreServableRuns(services: set<Service>, db: Tables, start: System, events: seq<Event>)
    requires Starts(services, db, start)
    ensures AllServable(services, db, events) <==> exists end :: Reaches(MovesTo, start, end) && end.history == events
  {
    if AllServable(services, db, events) {
      RunIsReached(services, db, start, events);
      assert Idle(services, db, events).history == events;
    }
    forall end | Reaches(MovesTo, start, end) && end.history == events
      ensures AllServable(services, db, events)
    {
      var states: seq<System>, moves: seq<Move> :| Leads(MovesTo, states, moves, start, end);
      HistoryIsServable(services, db, states, moves, |moves|);
    }
  }
}
