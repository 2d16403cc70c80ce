/** Runs of committed requests and drain batches, one at a time, and what every run keeps. */
module Runs {
  import opened Schema
  import opened Wallet
  import opened LedgerLaws
  import opened Rollup
  import opened Reconciliation

  datatype Event = Request(who: Account, orders: seq<Order>) | Batch(ids: set<nat>)

  function Step(db: Tables, e: Event): Tables {
    match e
    case Request(who, orders) =>
      (match Serve(db, who, orders)
       case Done(end, _) => end
       case Refused => db)
    case Batch(ids) => DrainBatch(db, ids)
  }

  function Run(db: Tables, events: seq<Event>): Tables {
    if |events| == 0 then db else Step(Run(db, events[..|events| - 1]), events[|events| - 1])
  }

  ghost predicate Fresh(db: Tables, s: Stamp) {
    FreshTx(db, s) && FreshOut(db, s)
  }

  predicate Apart(s: Stamp, t: Stamp) {
    s.txId != t.txId && {s.firstOut, s.secondOut} !! {t.firstOut, t.secondOut}
  }

  /** No stamp repeats a transaction id or an outbox id that is in use or drawn for another order. */
  ghost predicate FreshOrders(db: Tables, orders: seq<Order>) {
    && (forall i {:trigger Fresh(db, orders[i].stamp)} | 0 <= i < |orders| :: Fresh(db, orders[i].stamp))
    && (forall i, j {:trigger Apart(orders[i].stamp, orders[j].stamp)} | 0 <= i < j < |orders| ::
          Apart(orders[i].stamp, orders[j].stamp))
  }

  ghost predicate ValidEvent(db: Tables, e: Event) {
    match e
    case Request(who, orders) => Admissible(Open(db, who), who, orders) && FreshOrders(db, orders)
    case Batch(ids) => Drainable(db, ids)
  }

  ghost predicate ValidRun(db: Tables, events: seq<Event>) {
    |events| == 0
    || (ValidRun(db, events[..|events| - 1]) && ValidEvent(Run(db, events[..|events| - 1]), events[|events| - 1]))
  }

  /** Everything that holds of the tables between transactions. */
  ghost predicate Good(db: Tables) {
    Lawful(db) && Balanced(db)
  }

  lemma StaysFresh(db: Tables, who: Account, o: Order, s: Stamp)
    requires Fresh(db, s) && Apart(o.stamp, s) && Apply(db, who, o).Done?
    ensures Fresh(Apply(db, who, o).db, s)
  {
    var posts := PostsOf(db, who, o.action, o.stamp);
    assert |posts| <= 2 && (|posts| > 0 ==> posts[0].id == o.stamp.firstOut)
      && (|posts| > 1 ==> posts[1].id == o.stamp.secondOut);
    assert o.stamp.firstOut in {o.stamp.firstOut, o.stamp.secondOut} && s.firstOut in {s.firstOut, s.secondOut};
    assert o.stamp.secondOut in {o.stamp.firstOut, o.stamp.secondOut} && s.secondOut in {s.firstOut, s.secondOut};
  }

  lemma ApplyKeepsGood(db: Tables, who: Account, o: Order)
    requires Good(db) && Fresh(db, o.stamp) && Apply(db, who, o).Done?
    requires Positive(o.action) || o.action.id in db.registry
    ensures Good(Apply(db, who, o).db)
  {
    if o.action.id !in db.registry {
      ActionKeepsLaws(db, who, o.action, o.stamp);
      PlayKeepsBalanced(db, who, o.action, o.stamp);
    }
  }

  lemma {:induction false} ApplyAllKeepsGood(db: Tables, who: Account, orders: seq<Order>)
    requires Good(db) && FreshOrders(db, orders) && Admissible(db, who, orders) && ApplyAll(db, who, orders).Done?
    ensures Good(ApplyAll(db, who, orders).db)
    ensures forall s | Fresh(db, s) && (forall i | 0 <= i < |orders| :: Apart(orders[i].stamp, s)) ::
      Fresh(ApplyAll(db, who, orders).db, s)
  {
    if |orders| > 0 {
      var n := |orders| - 1;
      ApplyAllKeepsGood(db, who, orders[..n]);
      var mid := ApplyAll(db, who, orders[..n]).db;
      ApplyKeepsGood(mid, who, orders[n]);
      forall s | Fresh(db, s) && (forall i | 0 <= i < |orders| :: Apart(orders[i].stamp, s))
        ensures Fresh(ApplyAll(db, who, orders).db, s)
      {
        StaysFresh(mid, who, orders[n], s);
      }
    }
  }

  // What is known just before the last order of a request.
  lemma BeforeLast(db: Tables, who: Account, orders: seq<Order>)
    requires Good(db) && FreshOrders(db, orders) && Admissible(db, who, orders) && ApplyAll(db, who, orders).Done?
    requires |orders| > 0
    ensures var front, last := orders[..|orders| - 1], orders[|orders| - 1];
      && FreshOrders(db, front) && Admissible(db, who, front) && ApplyAll(db, who, front).Done?
      && Good(ApplyAll(db, who, front).db) && Fresh(ApplyAll(db, who, front).db, last.stamp)
      && (Positive(last.action) || last.action.id in ApplyAll(db, who, front).db.registry)
  {
    ApplyAllKeepsGood(db, who, orders[..|orders| - 1]);
  }

  lemma NextApply(start: Tables, who: Account, orders: seq<Order>, i: nat, cur: Tables, replies: seq<Reply>)
    requires i < |orders| && ApplyAll(start, who, orders[..i]) == Done(cur, replies)
    ensures ApplyAll(start, who, orders[..i + 1]) ==
      match Apply(cur, who, orders[i])
      case Refused => Refused
      case Done(next, reply) => Done(next, replies + reply)
  {
    assert orders[..i + 1][..i] == orders[..i];
  }

  lemma {:induction false} RefusedPrefix(start: Tables, who: Account, orders: seq<Order>, i: nat)
    requires i <= |orders| && ApplyAll(start, who, orders[..i]).Refused?
    ensures ApplyAll(start, who, orders).Refused?
  {
    if i == |orders| {
      assert orders[..i] == orders;
    } else {
      var n := |orders| - 1;
      assert orders[..n][..i] == orders[..i];
      RefusedPrefix(start, who, orders[..n], i);
    }
  }

  /** Action `n` is new when its turn comes, and would take the balance below zero. */
  ghost predicate OverdrawsAt(db: Tables, who: Account, orders: seq<Order>, n: nat)
    requires n < |orders|
  {
    var before := Serve(db, who, orders[..n]);
    before.Done? && orders[n].action.id !in before.db.registry
    && Balance(before.db, who) + DeltaOf(before.db, orders[n].action) < 0
  }

  lemma {:induction false} FirstOverdraft(db: Tables, who: Account, orders: seq<Order>) returns (n: nat)
    requires Serve(db, who, orders).Refused?
    ensures n < |orders| && OverdrawsAt(db, who, orders, n)
  {
    var front := orders[..|orders| - 1];
    if Serve(db, who, front).Refused? {
      n := FirstOverdraft(db, who, front);
      assert front[..n] == orders[..n];
    } else {
      n := |orders| - 1;
    }
  }

  /** A request is refused iff one of its actions overdraws. */
  lemma RefusedIffOverdrawn(db: Tables, who: Account, orders: seq<Order>)
    ensures Serve(db, who, orders).Refused? <==> exists n | 0 <= n < |orders| :: OverdrawsAt(db, who, orders, n)
  {
    if Serve(db, who, orders).Refused? {
      var n := FirstOverdraft(db, who, orders);
    }
    forall n | 0 <= n < |orders| && OverdrawsAt(db, who, orders, n)
      ensures Serve(db, who, orders).Refused?
    {
      var before := Serve(db, who, orders[..n]);
      NextApply(Open(db, who), who, orders, n, before.db, before.replies);
      RefusedPrefix(Open(db, who), who, orders, n + 1);
    }
  }

  lemma OpenKeepsFresh(db: Tables, who: Account, orders: seq<Order>)
    requires Good(db)
    ensures Good(Open(db, who))
    ensures forall s :: Fresh(db, s) ==> Fresh(Open(db, who), s)
    ensures FreshOrders(db, orders) ==> FreshOrders(Open(db, who), orders)
  {
    assert forall s :: Fresh(db, s) ==> Fresh(Open(db, who), s);
  }

  /** A served request keeps every table invariant; a refused one changes nothing (`Step`). */
  lemma ServeKeepsGood(db: Tables, who: Account, orders: seq<Order>)
    requires Good(db) && FreshOrders(db, orders) && Admissible(Open(db, who), who, orders)
    ensures Serve(db, who, orders).Done? ==> Good(Serve(db, who, orders).db)
  {
    var start := Open(db, who);
    if Serve(db, who, orders).Done? {
      OpenKeepsFresh(db, who, orders);
      ApplyAllKeepsGood(start, who, orders);
    }
  }

  lemma StepKeepsGood(db: Tables, e: Event)
    requires Good(db) && ValidEvent(db, e)
    ensures Good(Step(db, e))
  {
    match e
    case Request(who, orders) => ServeKeepsGood(db, who, orders);
    case Batch(ids) => DrainKeepsBalanced(db, ids);
  }

  /** Every table invariant holds in every reachable state. */
  lemma {:induction false} RunKeepsGood(db: Tables, events: seq<Event>)
    requires Good(db) && ValidRun(db, events)
    ensures Good(Run(db, events))
  {
    if |events| > 0 {
      var n := |events| - 1;
      RunKeepsGood(db, events[..n]);
      StepKeepsGood(Run(db, events[..n]), events[n]);
    }
  }

  lemma RunNext(db: Tables, events: seq<Event>, e: Event)
    ensures Run(db, events + [e]) == Step(Run(db, events), e)
    ensures ValidRun(db, events + [e]) <==> ValidRun(db, events) && ValidEvent(Run(db, events), e)
  {
    assert (events + [e])[..|events|] == events;
  }

  /** A database with seeded accounts and nothing else is a valid start. */
  lemma SeededIsGood(db: Tables)
    requires db == Tables(db.accounts, map[], [], map[], [], map[])
    requires forall who | who in db.accounts :: db.accounts[who] >= 0
    ensures Good(db)
  {
  }
}
