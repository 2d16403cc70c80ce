/** What runs preserve: money, the first answer to every action id, and history itself. */
module History {
  import opened Schema
  import opened Wallet
  import opened LedgerLaws
  import opened Runs

  /** What an account held before the first row of its ledger. */
  ghost function Opening(db: Tables, who: Account): int {
    Balance(db, who) - DeltaSum(db.ledger, iset{who})
  }

  lemma DeltaSumNext(ledger: seq<Entry>, x: Effect, who: iset<Account>)
    ensures DeltaSum(Marked(ledger, x.mark, x.entry.id) + [x.entry], who)
         == DeltaSum(ledger, who) + if x.entry.account in who then x.entry.delta else 0
  {
    var marked := Marked(ledger, x.mark, x.entry.id);
    assert (marked + [x.entry])[..|ledger|] == marked;
    if x.mark.Some? && Find(ledger, x.mark.value).Some? {
      var k := Find(ledger, x.mark.value).value;
      DeltaSumUpdate(ledger, k, marked[k], who);
    }
  }

  lemma {:induction false} ApplyAllConserves(db: Tables, who: Account, orders: seq<Order>, a: Account)
    requires ApplyAll(db, who, orders).Done?
    ensures Opening(ApplyAll(db, who, orders).db, a) == Opening(db, a)
  {
    if |orders| > 0 {
      var n := |orders| - 1;
      ApplyAllConserves(db, who, orders[..n], a);
      var mid := ApplyAll(db, who, orders[..n]).db;
      DeltaSumNext(mid.ledger, Judge(mid, who, orders[n].action, orders[n].stamp), iset{a});
    }
  }

  /** Balance conservation: in every reachable state each balance is what the account opened with
      plus the sum of the balance deltas in its ledger. */
  lemma {:induction false} RunConserves(db: Tables, events: seq<Event>, a: Account)
    ensures Opening(Run(db, events), a) == Opening(db, a)
  {
    if |events| > 0 {
      var n := |events| - 1;
      RunConserves(db, events[..n], a);
      var mid := Run(db, events[..n]);
      if events[n].Request? && Serve(mid, events[n].who, events[n].orders).Done? {
        ApplyAllConserves(Open(mid, events[n].who), events[n].who, events[n].orders, a);
      }
    }
  }

  /** A request with the actions `a + b` is the request `a` followed by the request `b`: it commits
      iff both do, with the same tables and the replies of the one after those of the other. */
  lemma {:induction false} ServeConcat(db: Tables, who: Account, a: seq<Order>, b: seq<Order>)
    ensures Serve(db, who, a + b) ==
      match Serve(db, who, a)
      case Refused => Refused
      case Done(mid, first) =>
        match Serve(mid, who, b)
        case Refused => Refused
        case Done(end, second) => Done(end, first + second)
  {
    ApplyAllConcat(Open(db, who), who, a, b);
    if Serve(db, who, a).Done? {
      AccountStaysOpen(Open(db, who), who, a, who);
    }
  }

  function AndThen(before: Outcome, who: Account, o: Order): Outcome {
    match before
    case Refused => Refused
    case Done(mid, replies) =>
      match Apply(mid, who, o)
      case Refused => Refused
      case Done(end, reply) => Done(end, replies + reply)
  }

  function WithReplies(first: seq<Reply>, r: Outcome): Outcome {
    match r
    case Refused => Refused
    case Done(end, second) => Done(end, first + second)
  }

  lemma RepliesAssociate(first: seq<Reply>, r: Outcome, who: Account, o: Order)
    ensures AndThen(WithReplies(first, r), who, o) == WithReplies(first, AndThen(r, who, o))
  {
    if r.Done? && Apply(r.db, who, o).Done? {
      var reply := Apply(r.db, who, o).replies;
      assert (first + r.replies) + reply == first + (r.replies + reply);
    }
  }

  lemma {:induction false} ApplyAllConcat(db: Tables, who: Account, a: seq<Order>, b: seq<Order>)
    ensures ApplyAll(db, who, a + b) ==
      match ApplyAll(db, who, a)
      case Refused => Refused
      case Done(mid, first) => WithReplies(first, ApplyAll(mid, who, b))
  {
    if |b| == 0 {
      assert a + b == a;
    } else {
      var n := |b| - 1;
      assert (a + b)[..|a| + n] == a + b[..n] && (a + b)[|a| + n] == b[n];
      assert ApplyAll(db, who, a + b) == AndThen(ApplyAll(db, who, a + b[..n]), who, b[n]);
      ApplyAllConcat(db, who, a, b[..n]);
      if ApplyAll(db, who, a).Done? {
        var first := ApplyAll(db, who, a);
        RepliesAssociate(first.replies, ApplyAll(first.db, who, b[..n]), who, b[n]);
        assert ApplyAll(first.db, who, b) == AndThen(ApplyAll(first.db, who, b[..n]), who, b[n]);
      }
    }
  }

  lemma {:induction false} AccountStaysOpen(db: Tables, who: Account, orders: seq<Order>, a: Account)
    requires a in db.accounts && ApplyAll(db, who, orders).Done?
    ensures a in ApplyAll(db, who, orders).db.accounts
  {
    if |orders| > 0 {
      AccountStaysOpen(db, who, orders[..|orders| - 1], a);
    }
  }

  /** Registered ids keep their row, and accounts stay open. */
  ghost predicate Remembers(before: Tables, after: Tables) {
    && before.accounts.Keys <= after.accounts.Keys
    && (forall id | id in before.registry :: id in after.registry && after.registry[id] == before.registry[id])
  }

  lemma {:induction false} ApplyAllRemembers(db: Tables, who: Account, orders: seq<Order>)
    requires ApplyAll(db, who, orders).Done?
    ensures var r := ApplyAll(db, who, orders);
      && Remembers(db, r.db)
      && |r.replies| == |orders|
      && forall i | 0 <= i < |orders| ::
           r.replies[i].id == orders[i].action.id && orders[i].action.id in r.db.registry
           && r.db.registry[orders[i].action.id].txId == r.replies[i].txId
  {
    if |orders| > 0 {
      ApplyAllRemembers(db, who, orders[..|orders| - 1]);
    }
  }

  lemma {:induction false} RunRemembers(db: Tables, events: seq<Event>, i: nat)
    requires i <= |events|
    ensures Remembers(Run(db, events[..i]), Run(db, events))
  {
    if i == |events| {
      assert events[..i] == events;
    } else {
      var n := |events| - 1;
      RunRemembers(db, events[..n], i);
      assert events[..n][..i] == events[..i];
      var mid := Run(db, events[..n]);
      if events[n].Request? && Serve(mid, events[n].who, events[n].orders).Done? {
        ApplyAllRemembers(Open(mid, events[n].who), events[n].who, events[n].orders);
      }
    }
  }

  lemma AnswerIsRegistered(db: Tables, events: seq<Event>, i: nat, k: nat)
    requires i < |events| && events[i].Request? && k < |events[i].orders|
    requires Serve(Run(db, events[..i]), events[i].who, events[i].orders).Done?
    ensures var id := events[i].orders[k].action.id;
      var replies := Serve(Run(db, events[..i]), events[i].who, events[i].orders).replies;
      && |replies| == |events[i].orders| && replies[k].id == id
      && id in Run(db, events).registry && Run(db, events).registry[id].txId == replies[k].txId
  {
    var mid := Run(db, events[..i]);
    ApplyAllRemembers(Open(mid, events[i].who), events[i].who, events[i].orders);
    RunRemembers(db, events, i + 1);
    assert events[..i + 1][..i] == events[..i];
  }

  /** Every action of a committed request is answered, and any two answers of a run to the same action id carry
      the same tx id. */
  lemma FirstResultWins(db: Tables, events: seq<Event>, i: nat, k: nat, j: nat, l: nat)
    requires i < |events| && events[i].Request? && k < |events[i].orders|
    requires j < |events| && events[j].Request? && l < |events[j].orders|
    requires events[i].orders[k].action.id == events[j].orders[l].action.id
    requires Serve(Run(db, events[..i]), events[i].who, events[i].orders).Done?
    requires Serve(Run(db, events[..j]), events[j].who, events[j].orders).Done?
    ensures var one := Serve(Run(db, events[..i]), events[i].who, events[i].orders).replies;
      var other := Serve(Run(db, events[..j]), events[j].who, events[j].orders).replies;
      && |one| == |events[i].orders| && |other| == |events[j].orders|
      && one[k].id == other[l].id == events[i].orders[k].action.id && one[k].txId == other[l].txId
  {
    AnswerIsRegistered(db, events, i, k);
    AnswerIsRegistered(db, events, j, l);
  }

  predicate SameActions(a: seq<Order>, b: seq<Order>) {
    |a| == |b| && forall i | 0 <= i < |a| :: a[i].action == b[i].action
  }

  /** Some earlier event was the same request, possibly claimed with other stamps, and committed. */
  ghost predicate Redelivered(db: Tables, before: seq<Event>, e: Event) {
    e.Request? && exists i | 0 <= i < |before| ::
      before[i].Request? && before[i].who == e.who && SameActions(before[i].orders, e.orders)
      && Serve(Run(db, before[..i]), e.who, before[i].orders).Done?
  }

  /** The run with every redelivery of a committed request removed. */
  ghost function Erase(db: Tables, events: seq<Event>): seq<Event> {
    if |events| == 0 then []
    else
      var before, e := events[..|events| - 1], events[|events| - 1];
      if Redelivered(db, before, e) then Erase(db, before) else Erase(db, before) + [e]
  }

  /** Exactly the redeliveries go: an event is dropped iff some earlier request of the same account with the same
      actions, in the same order, committed. */
  lemma ErasedIffRepeated(db: Tables, events: seq<Event>, j: nat)
    requires j < |events|
    ensures var repeated := events[j].Request? && exists i | 0 <= i < j ::
        events[i].Request? && events[i].who == events[j].who && |events[i].orders| == |events[j].orders|
        && (forall k | 0 <= k < |events[j].orders| :: events[i].orders[k].action == events[j].orders[k].action)
        && Serve(Run(db, events[..i]), events[i].who, events[i].orders).Done?;
      Erase(db, events[..j + 1]) == if repeated then Erase(db, events[..j]) else Erase(db, events[..j]) + [events[j]]
  {
    var before := events[..j];
    assert events[..j + 1][..j] == before;
    assert forall i | 0 <= i < j :: before[i] == events[i] && before[..i] == events[..i];
  }

  lemma {:induction false} KnownOrdersChangeNothing(db: Tables, who: Account, orders: seq<Order>)
    requires forall i | 0 <= i < |orders| :: orders[i].action.id in db.registry
    ensures ApplyAll(db, who, orders).Done? && ApplyAll(db, who, orders).db == db
  {
    if |orders| > 0 {
      KnownOrdersChangeNothing(db, who, orders[..|orders| - 1]);
    }
  }

  lemma RedeliveryIsIdle(db: Tables, before: seq<Event>, e: Event)
    requires Redelivered(db, before, e)
    ensures Step(Run(db, before), e) == Run(db, before)
  {
    var i :| 0 <= i < |before| && before[i].Request? && before[i].who == e.who
      && SameActions(before[i].orders, e.orders) && Serve(Run(db, before[..i]), e.who, before[i].orders).Done?;
    ServedStaysKnown(db, before, i);
    assert forall k | 0 <= k < |e.orders| :: e.orders[k].action == before[i].orders[k].action;
    KnownOrdersChangeNothing(Run(db, before), e.who, e.orders);
  }

  /** Once a request is served, its account is open and its ids are registered for good. */
  lemma ServedStaysKnown(db: Tables, events: seq<Event>, i: nat)
    requires i < |events| && events[i].Request?
    requires Serve(Run(db, events[..i]), events[i].who, events[i].orders).Done?
    ensures events[i].who in Run(db, events).accounts
    ensures forall k | 0 <= k < |events[i].orders| :: events[i].orders[k].action.id in Run(db, events).registry
  {
    var who, orders := events[i].who, events[i].orders;
    ApplyAllRemembers(Open(Run(db, events[..i]), who), who, orders);
    RunRemembers(db, events, i + 1);
    assert events[..i + 1][..i] == events[..i];
  }

  /** Redelivery erasure: the final tables do not depend on redeliveries of committed requests. */
  lemma {:induction false} RedeliveriesErase(db: Tables, events: seq<Event>)
    ensures Run(db, Erase(db, events)) == Run(db, events)
  {
    if |events| > 0 {
      var before, e := events[..|events| - 1], events[|events| - 1];
      RedeliveriesErase(db, before);
      assert Run(db, events) == Step(Run(db, before), e);
      if Redelivered(db, before, e) {
        RedeliveryIsIdle(db, before, e);
      } else {
        RunNext(db, Erase(db, before), e);
        assert Erase(db, events) == Erase(db, before) + [e];
      }
    }
  }

  /** A row is never rewritten, except that an empty `rolled_back_by` may be filled, once. */
  ghost predicate RowKept(e: Entry, later: Entry) {
    later == e || (e.rolledBackBy.None? && later == e.(rolledBackBy := later.rolledBackBy))
  }

  /** Ledger rows, intents and outbox rows only accumulate. */
  ghost predicate Accumulates(before: Tables, after: Tables) {
    && |before.ledger| <= |after.ledger| && |before.outbox| <= |after.outbox|
    && (forall i | 0 <= i < |before.ledger| :: RowKept(before.ledger[i], after.ledger[i]))
    && (forall o | o in before.intents :: o in after.intents && after.intents[o] == before.intents[o])
    && (forall i | 0 <= i < |before.outbox| ::
          after.outbox[i] == before.outbox[i].(status := after.outbox[i].status)
          && (before.outbox[i].status == Processed ==> after.outbox[i].status == Processed))
  }

  lemma ApplyAccumulates(db: Tables, who: Account, o: Order)
    requires Good(db) && Fresh(db, o.stamp) && Apply(db, who, o).Done?
    requires Positive(o.action) || o.action.id in db.registry
    ensures Accumulates(db, Apply(db, who, o).db)
  {
    if o.action.id !in db.registry {
      var x := Judge(db, who, o.action, o.stamp);
      JudgementFits(db, who, o.action, o.stamp);
      MarkedRows(db.ledger, x.mark, o.action.id, x.entry);
      if x.mark.Some? {
        FindAt(db.ledger, Find(db.ledger, x.mark.value).value);
      }
    }
  }

  lemma {:induction false} ApplyAllAccumulates(db: Tables, who: Account, orders: seq<Order>)
    requires Good(db) && FreshOrders(db, orders) && Admissible(db, who, orders) && ApplyAll(db, who, orders).Done?
    ensures Accumulates(db, ApplyAll(db, who, orders).db)
  {
    if |orders| > 0 {
      var n := |orders| - 1;
      BeforeLast(db, who, orders);
      ApplyAllAccumulates(db, who, orders[..n]);
      var mid := ApplyAll(db, who, orders[..n]).db;
      ApplyAccumulates(mid, who, orders[n]);
      AccumulatesTransitive(db, mid, ApplyAll(db, who, orders).db);
    }
  }

  lemma AccumulatesTransitive(a: Tables, b: Tables, c: Tables)
    requires Accumulates(a, b) && Accumulates(b, c)
    ensures Accumulates(a, c)
  {
    forall i | 0 <= i < |a.ledger|
      ensures RowKept(a.ledger[i], c.ledger[i])
    {
      assert RowKept(a.ledger[i], b.ledger[i]) && RowKept(b.ledger[i], c.ledger[i]);
    }
    forall i | 0 <= i < |a.outbox|
      ensures c.outbox[i] == a.outbox[i].(status := c.outbox[i].status)
      ensures a.outbox[i].status == Processed ==> c.outbox[i].status == Processed
    {
      assert b.outbox[i] == a.outbox[i].(status := b.outbox[i].status);
      assert c.outbox[i] == b.outbox[i].(status := c.outbox[i].status);
    }
  }

  lemma StepAccumulates(db: Tables, e: Event)
    requires Good(db) && ValidEvent(db, e)
    ensures Accumulates(db, Step(db, e))
  {
    match e
    case Request(who, orders) =>
      if Serve(db, who, orders).Done? {
        OpenKeepsFresh(db, who, orders);
        ApplyAllAccumulates(Open(db, who), who, orders);
      }
    case Batch(ids) =>
  }

  /** In every run the ledger, the intents and the outbox only grow, `rolled_back_by` is written at
      most once per row, and a processed outbox row stays processed. */
  lemma {:induction false} RunAccumulates(db: Tables, events: seq<Event>, i: nat)
    requires Good(db) && ValidRun(db, events) && i <= |events|
    ensures Accumulates(Run(db, events[..i]), Run(db, events))
  {
    if i == |events| {
      assert events[..i] == events;
    } else {
      var n := |events| - 1;
      RunAccumulates(db, events[..n], i);
      assert events[..n][..i] == events[..i];
      RunKeepsGood(db, events[..n]);
      StepAccumulates(Run(db, events[..n]), events[n]);
      AccumulatesTransitive(Run(db, events[..i]), Run(db, events[..n]), Run(db, events));
    }
  }

  predicate AppliedRollbackOf(ledger: seq<Entry>, j: nat, i: nat)
    requires i < |ledger| && j < |ledger|
  {
    ledger[j].kind == RollbackKind && ledger[j].status == Applied && ledger[j].original == Some(ledger[i].id)
  }

  /** An original has at most one applied rollback, which came later and moved exactly the opposite amount. */
  lemma OneAppliedRollback(db: Tables, i: nat, j: nat, k: nat)
    requires Lawful(db) && i < |db.ledger| && j < |db.ledger| && k < |db.ledger|
    requires AppliedRollbackOf(db.ledger, j, i) && AppliedRollbackOf(db.ledger, k, i)
    ensures j == k && i < j && db.ledger[j].delta == -db.ledger[i].delta && db.ledger[i].rolledBackBy == Some(db.ledger[j].id)
  {
    FindAt(db.ledger, i);
    FindAt(db.ledger, j);
    assert Pointed(db.ledger, j) && Pointed(db.ledger, k);
    assert Reversed(db.ledger, i);
  }

  /** The outbox was extended by pending rows, if at all. */
  ghost predicate Pends(before: seq<OutboxRow>, after: seq<OutboxRow>) {
    && |before| <= |after| && after[..|before|] == before
    && forall i | |before| <= i < |after| :: after[i].status == Pending
  }

  lemma PendsMore(a: seq<OutboxRow>, b: seq<OutboxRow>, c: seq<OutboxRow>)
    requires Pends(a, b) && Pends(b, c)
    ensures Pends(a, c)
  {
    assert c[..|a|] == c[..|b|][..|a|];
    forall i | |a| <= i < |c|
      ensures c[i].status == Pending
    {
      assert i < |b| ==> c[i] == c[..|b|][i];
    }
  }

  lemma ApplyPends(db: Tables, who: Account, o: Order)
    requires Apply(db, who, o).Done?
    ensures Apply(db, who, o).db.rollup == db.rollup && Pends(db.outbox, Apply(db, who, o).db.outbox)
  {
  }

  /** A request only appends pending rows to the outbox, and leaves the rollup alone. */
  lemma {:induction false} NewRowsPend(db: Tables, who: Account, orders: seq<Order>)
    requires ApplyAll(db, who, orders).Done?
    ensures ApplyAll(db, who, orders).db.rollup == db.rollup && Pends(db.outbox, ApplyAll(db, who, orders).db.outbox)
  {
    if |orders| > 0 {
      var n := |orders| - 1;
      NewRowsPend(db, who, orders[..n]);
      var mid := ApplyAll(db, who, orders[..n]).db;
      ApplyPends(mid, who, orders[n]);
      PendsMore(db.outbox, mid.outbox, Apply(mid, who, orders[n]).db.outbox);
    }
  }

  /** Registry and ledger name the same ids in every reachable state; each id has exactly one row, written
      under the account, tx id and time it was claimed with. */
  lemma RegistryIsLedger(db: Tables, events: seq<Event>, id: ActionId)
    requires Good(db) && ValidRun(db, events)
    ensures var end := Run(db, events);
      && (id in end.registry <==> exists i | 0 <= i < |end.ledger| :: end.ledger[i].id == id)
      && (forall i, j | 0 <= i < |end.ledger| && 0 <= j < |end.ledger| && end.ledger[i].id == id == end.ledger[j].id :: i == j)
      && (forall i | 0 <= i < |end.ledger| && end.ledger[i].id == id ::
            end.registry[id] == RegistryRow(end.ledger[i].txId, end.ledger[i].account, end.ledger[i].createdAt))
  {
    RunKeepsGood(db, events);
    var end := Run(db, events);
    if id in end.registry {
      assert end.ledger[Find(end.ledger, id).value].id == id;
    }
  }

  /** The tombstone law over whole runs: a bet or win has an intent iff it was pre-rolled or has been rolled
      back, a row is applied iff it moved money, and only applied rows get rolled back. */
  lemma RowsObeyTombstones(db: Tables, events: seq<Event>, i: nat)
    requires Good(db) && ValidRun(db, events) && i < |Run(db, events).ledger|
    ensures var end := Run(db, events); var e := end.ledger[i];
      && (e.kind != RollbackKind ==> (e.id in end.intents <==> e.status == NoopPrerolled || e.rolledBackBy.Some?))
      && (e.status == Applied <==> e.delta != 0)
      && (e.rolledBackBy.Some? ==> e.status == Applied && e.id in end.intents)
      && (e.kind == RollbackKind ==>
            e.original.Some? && e.original.value in end.intents
            && (e.status == NoopAlreadyRolledBack <==> end.intents[e.original.value].rollback != e.id))
  {
    RunKeepsGood(db, events);
    var end := Run(db, events);
    assert WellShaped(end.ledger[i]) && Recorded(end.intents, end.ledger[i]);
    if end.ledger[i].rolledBackBy.Some? {
      ReversedHasIntent(end, i);
    }
  }
}
