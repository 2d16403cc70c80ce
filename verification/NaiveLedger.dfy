/** The ledger explains itself: what happened to every row, and all of `rollback_intents`, follows from
    the rows written before it, by a plain scan that knows neither intents nor registry. */
module NaiveLedger {
  import opened Schema
  import opened Wallet
  import opened LedgerLaws
  import opened Runs
  import opened Slices

  predicate Targets(e: Entry, o: ActionId) {
    e.kind == RollbackKind && e.original == Some(o)
  }

  /** One of the first `n` rows is a rollback of `o`, applied or not. */
  predicate TargetedBefore(ledger: seq<Entry>, n: nat, o: ActionId)
    requires n <= |ledger|
  {
    exists k | 0 <= k < n :: Targets(ledger[k], o)
  }

  /** The status that a scan of the first `n` rows gives the row `e`. */
  function ScanStatus(ledger: seq<Entry>, n: nat, e: Entry): Status
    requires n <= |ledger|
  {
    match e.original
    case None => if TargetedBefore(ledger, n, e.id) then NoopPrerolled else Applied
    case Some(o) =>
      if TargetedBefore(ledger, n, o) then NoopAlreadyRolledBack
      else (
        match Lookup(ledger[..n], o)
        case None => NoopTombstone
        case Some(target) => if target.status == Applied then Applied else NoopOriginalNotApplied)
  }

  /** The amount that goes with it. */
  function ScanDelta(ledger: seq<Entry>, n: nat, e: Entry): int
    requires n <= |ledger|
  {
    if ScanStatus(ledger, n, e) != Applied then 0
    else
      match e.original
      case None => if e.amount.None? then 0 else if e.kind == BetKind then -e.amount.value else e.amount.value
      case Some(o) => match Lookup(ledger[..n], o) case None => 0 case Some(target) => -target.delta
  }

  ghost predicate Explained(ledger: seq<Entry>, i: nat)
    requires i < |ledger|
  {
    ledger[i].status == ScanStatus(ledger, i, ledger[i]) && ledger[i].delta == ScanDelta(ledger, i, ledger[i])
  }

  ghost predicate SelfExplaining(ledger: seq<Entry>) {
    forall i {:trigger Explained(ledger, i)} | 0 <= i < |ledger| :: Explained(ledger, i)
  }

  predicate SameButMark(a: Entry, b: Entry) {
    b == a.(rolledBackBy := b.rolledBackBy)
  }

  // Filling in `rolled_back_by` and adding rows does not change what a scan of a prefix says.
  lemma ScanIgnoresMarks(a: seq<Entry>, b: seq<Entry>, n: nat, e: Entry, f: Entry)
    requires n <= |a| && n <= |b| && SameButMark(e, f)
    requires forall k | 0 <= k < n :: SameButMark(a[k], b[k])
    ensures ScanStatus(a, n, e) == ScanStatus(b, n, f) && ScanDelta(a, n, e) == ScanDelta(b, n, f)
  {
    ScanTargets(a, b, n, e.id);
    if e.original.Some? {
      var o := e.original.value;
      ScanTargets(a, b, n, o);
      FindById(a[..n], b[..n], o);
      if Find(a[..n], o).Some? {
        assert SameButMark(a[Find(a[..n], o).value], b[Find(a[..n], o).value]);
      }
    }
  }

  lemma ScanTargets(a: seq<Entry>, b: seq<Entry>, n: nat, o: ActionId)
    requires n <= |a| && n <= |b| && forall k | 0 <= k < n :: SameButMark(a[k], b[k])
    ensures TargetedBefore(a, n, o) == TargetedBefore(b, n, o)
  {
    forall k | 0 <= k < n
      ensures Targets(a[k], o) == Targets(b[k], o)
    {
      assert SameButMark(a[k], b[k]);
    }
  }

  /** `rollback_intents` holds exactly the ids some ledger row tried to roll back. */
  lemma IntentsAreTargets(db: Tables, o: ActionId)
    requires IntentsMatch(db.intents, db.ledger)
    ensures o in db.intents <==> TargetedBefore(db.ledger, |db.ledger|, o)
  {
    if o in db.intents {
      assert Written(db.intents, db.ledger, o);
      assert Targets(db.ledger[Find(db.ledger, db.intents[o].rollback).value], o);
    }
    if TargetedBefore(db.ledger, |db.ledger|, o) {
      var k :| 0 <= k < |db.ledger| && Targets(db.ledger[k], o);
      assert Recorded(db.intents, db.ledger[k]);
    }
  }

  /** The verdict the tables give is the one the scan gives. */
  lemma JudgementIsScan(db: Tables, who: Account, a: Action, s: Stamp)
    requires IntentsMatch(db.intents, db.ledger) && AllWellShaped(db.ledger)
    ensures var e, n := EntryOf(db, who, a, s), |db.ledger|;
      e.status == ScanStatus(db.ledger, n, e) && e.delta == ScanDelta(db.ledger, n, e)
  {
    assert db.ledger[..|db.ledger|] == db.ledger;
    IntentsAreTargets(db, if a.Rollback? then a.original else a.id);
    if a.Rollback? && Find(db.ledger, a.original).Some? {
      assert WellShaped(db.ledger[Find(db.ledger, a.original).value]);
    }
  }

  lemma PlayStaysExplaining(db: Tables, who: Account, a: Action, s: Stamp)
    requires UniqueIds(db.ledger) && IntentsMatch(db.intents, db.ledger) && AllWellShaped(db.ledger)
    requires SelfExplaining(db.ledger)
    ensures SelfExplaining(Play(db, Judge(db, who, a, s)).ledger)
  {
    var x := Judge(db, who, a, s);
    var next := Play(db, x).ledger;
    MarkedRows(db.ledger, x.mark, a.id, x.entry);
    JudgementIsScan(db, who, a, s);
    forall i | 0 <= i < |next|
      ensures Explained(next, i)
    {
      if i < |db.ledger| {
        assert Explained(db.ledger, i);
        ScanIgnoresMarks(db.ledger, next, i, db.ledger[i], next[i]);
      } else {
        ScanIgnoresMarks(db.ledger, next, i, x.entry, x.entry);
      }
    }
  }

  lemma {:induction false} ApplyAllStaysExplaining(db: Tables, who: Account, orders: seq<Order>)
    requires Good(db) && FreshOrders(db, orders) && Admissible(db, who, orders) && ApplyAll(db, who, orders).Done?
    requires SelfExplaining(db.ledger)
    ensures SelfExplaining(ApplyAll(db, who, orders).db.ledger)
  {
    if |orders| > 0 {
      var n := |orders| - 1;
      BeforeLast(db, who, orders);
      ApplyAllStaysExplaining(db, who, orders[..n]);
      var mid := ApplyAll(db, who, orders[..n]).db;
      if orders[n].action.id !in mid.registry {
        PlayStaysExplaining(mid, who, orders[n].action, orders[n].stamp);
      }
    }
  }

  /** In every reachable state each row has the status and the delta that a scan of the rows before it gives,
      and the intents are the ids that rollback rows name. */
  lemma {:induction false} RunExplainsItself(db: Tables, events: seq<Event>)
    requires Good(db) && ValidRun(db, events) && SelfExplaining(db.ledger)
    ensures var end := Run(db, events);
      && SelfExplaining(end.ledger)
      && forall o :: o in end.intents <==> TargetedBefore(end.ledger, |end.ledger|, o)
  {
    RunKeepsGood(db, events);
    if |events| > 0 {
      var n := |events| - 1;
      var mid := Run(db, events[..n]);
      RunExplainsItself(db, events[..n]);
      RunKeepsGood(db, events[..n]);
      if events[n].Request? && Serve(mid, events[n].who, events[n].orders).Done? {
        OpenKeepsFresh(mid, events[n].who, events[n].orders);
        ApplyAllStaysExplaining(Open(mid, events[n].who), events[n].who, events[n].orders);
      }
    }
    forall o
      ensures o in Run(db, events).intents <==> TargetedBefore(Run(db, events).ledger, |Run(db, events).ledger|, o)
    {
      IntentsAreTargets(Run(db, events), o);
    }
  }
}
