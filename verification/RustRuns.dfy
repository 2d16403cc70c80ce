/** Runs of the Rust service: its commits are commits of the exact machine, so whatever holds of every
    exact run holds of its runs, and no balance ever leaves the range of an `i64`. */
module RustRuns {
  import opened Schema
  import opened Wallet
  import opened Rollup
  import opened Reconciliation
  import opened Runs
  import opened Store
  import opened RustProcessor

  function Step64(db: Tables, e: Event): Tables {
    match e
    case Request(who, orders) =>
      (match Serve64(db, who, orders)
       case Done64(end, _) => end
       case Failed(_) => db)
    case Batch(ids) => DrainBatch(db, ids)
  }

  function Run64(db: Tables, events: seq<Event>): Tables {
    if |events| == 0 then db else Step64(Run64(db, events[..|events| - 1]), events[|events| - 1])
  }

  /** Amounts are arbitrary `i64` values, positive or not. */
  ghost predicate ValidEvent64(db: Tables, e: Event) {
    match e
    case Request(_, orders) => Representable(orders) && FreshOrders(db, orders)
    case Batch(ids) => Drainable(db, ids)
  }

  ghost predicate ValidRun64(db: Tables, events: seq<Event>) {
    |events| == 0
    || (ValidRun64(db, events[..|events| - 1])
        && ValidEvent64(Run64(db, events[..|events| - 1]), events[|events| - 1]))
  }

  predicate Commits64(db: Tables, e: Event) {
    e.Batch? || Serve64(db, e.who, e.orders).Done64?
  }

  /** The run without its refused requests. */
  function Committed64(db: Tables, events: seq<Event>): seq<Event> {
    if |events| == 0 then []
    else
      var before, e := events[..|events| - 1], events[|events| - 1];
      Committed64(db, before) + if Commits64(Run64(db, before), e) then [e] else []
  }

  /** A request the Rust service accepts has a positive amount wherever it claims an id. */
  lemma {:induction false} AcceptedIsAdmissible(db: Tables, who: Account, orders: seq<Order>)
    requires ApplyAll64(db, who, orders).Done64?
    ensures Admissible(db, who, orders)
  {
    if |orders| > 0 {
      AcceptedIsAdmissible(db, who, orders[..|orders| - 1]);
      RustRefinesExact(db, who, orders[..|orders| - 1]);
    }
  }

  lemma StepIsExact(db: Tables, e: Event)
    requires Good(db) && Bounded(db) && ValidEvent64(db, e) && Commits64(db, e)
    ensures ValidEvent(db, e) && Step64(db, e) == Step(db, e) && Bounded(Step64(db, e))
  {
    match e
    case Request(who, orders) =>
      AcceptedIsAdmissible(Open(db, who), who, orders);
      RustRefinesExact(Open(db, who), who, orders);
      ServeKeepsBounded(db, who, orders);
    case Batch(ids) =>
  }

  /** Every run of the Rust service is the exact run of what it committed; in every state it reaches all
      laws of the tables hold and every balance lies between zero and 2^63-1. */
  lemma {:induction false} RunIsExact(db: Tables, events: seq<Event>)
    requires Good(db) && Bounded(db) && ValidRun64(db, events)
    ensures var committed := Committed64(db, events);
      ValidRun(db, committed) && Run64(db, events) == Run(db, committed)
    ensures Good(Run64(db, events)) && Bounded(Run64(db, events))
    ensures forall a | a in Run64(db, events).accounts :: 0 <= Run64(db, events).accounts[a] <= 0x7fff_ffff_ffff_ffff
  {
    if |events| > 0 {
      var before, e := events[..|events| - 1], events[|events| - 1];
      RunIsExact(db, before);
      if Commits64(Run64(db, before), e) {
        StepIsExact(Run64(db, before), e);
        StepKeepsGood(Run64(db, before), e);
        RunNext(db, Committed64(db, before), e);
      } else {
        assert Committed64(db, events) == Committed64(db, before);
      }
    }
  }

  /** The two machines do differ: with a full account, any win is accepted by the one and refused by the other. */
  lemma FullAccountRefusesWin(db: Tables, who: Account, amount: int)
    requires db == Tables(map[who := MAX_I64], map[], [], map[], [], map[]) && 0 < amount <= MAX_I64
    ensures var orders := [Order(Win(1, amount), Stamp(1, 0, 1, 2))];
      && Good(db) && Bounded(db) && ValidEvent(db, Request(who, orders)) && ValidEvent64(db, Request(who, orders))
      && Serve(db, who, orders).Done? && Balance(Serve(db, who, orders).db, who) == MAX_I64 + amount
      && Serve64(db, who, orders) == Failed(InsufficientFunds)
  {
    var o := Order(Win(1, amount), Stamp(1, 0, 1, 2));
    SeededIsGood(db);
    assert [o][..0] == [] && Validated([o]) && FreshOrders(db, [o]);
    ValidatedIsAdmissible(Open(db, who), who, [o]);
    assert Judge(db, who, o.action, o.stamp).balance == MAX_I64 + amount;
    assert Open(db, who) == db && [o][..1] == [o];
    NextApply(db, who, [o], 0, db, []);
    NextApply64(db, who, [o], 0, db, []);
  }
}
