/** What balances and reports amount to, as functions of the set of delivered actions alone. */
module ClosedForm {
  import opened Schema
  import opened Wallet
  import opened LedgerLaws
  import opened Reconciliation
  import opened Runs
  import opened History
  import opened Chains

  ghost function BucketsOf(a: Account): iset<Bucket> {
    iset b: Bucket | b.account == a
  }

  /** The bets and wins of `a` that were reversed, and whose reversal was itself reversed. */
  ghost function RevivedSum(ledger: seq<Entry>, n: nat, a: Account): int
    requires Linked(ledger) && n <= |ledger|
  {
    if n == 0 then 0
    else
      RevivedSum(ledger, n - 1, a)
        + if ledger[n - 1].kind != RollbackKind && ledger[n - 1].account == a && Reversals(ledger, n - 1) > 0
             && Reversals(ledger, n - 1) % 2 == 0
          then ledger[n - 1].delta else 0
  }

  lemma {:induction false} SurvivorsByReport(ledger: seq<Entry>, n: nat, a: Account)
    requires Chained(ledger) && n <= |ledger|
    ensures SurvivingSum(ledger, n, iset{a})
         == LedgerSum(ledger[..n], BucketsOf(a), TotalWin) - LedgerSum(ledger[..n], BucketsOf(a), TotalBet)
          + RevivedSum(ledger, n, a)
  {
    if n > 0 {
      SurvivorsByReport(ledger, n - 1, a);
      assert ledger[..n][..n - 1] == ledger[..n - 1];
      assert WellShaped(ledger[n - 1]);
    }
  }

  /** Money against reports: what an account gained is its reported wins minus its reported bets,
      over rollup and undrained outbox, plus the bets and wins revived by reversing their rollback. */
  lemma GainIsReportedPlusRevived(db: Tables, a: Account)
    requires Good(db) && Closed(db.ledger, iset{a})
    ensures Balance(db, a) - Opening(db, a)
         == Reported(db, BucketsOf(a), TotalWin) - Reported(db, BucketsOf(a), TotalBet)
          + RevivedSum(db.ledger, |db.ledger|, a)
  {
    ChainsCancel(db.ledger, iset{a});
    SurvivorsByReport(db.ledger, |db.ledger|, a);
    assert db.ledger[..|db.ledger|] == db.ledger;
    RollupPlusUndrained(db, BucketsOf(a), TotalWin);
    RollupPlusUndrained(db, BucketsOf(a), TotalBet);
  }

  /** Rollback chains cancel in every reachable state, whatever accounts the rollbacks came from: all money
      moved is the signed amount of the bets and wins reversed an even number of times. */
  lemma AllMoneyCancels(db: Tables, events: seq<Event>, everyone: iset<Account>)
    requires Good(db) && ValidRun(db, events) && forall a: Account :: a in everyone
    ensures var ledger := Run(db, events).ledger;
      Linked(ledger) && DeltaSum(ledger, everyone) == SurvivingSum(ledger, |ledger|, everyone)
  {
    RunKeepsGood(db, events);
    ChainsCancel(Run(db, events).ledger, everyone);
  }

  /** An action as some account delivered it. */
  datatype Item = Item(account: Account, action: Action)

  function ItemOf(e: Entry): Item {
    var amount := if e.amount.Some? then e.amount.value else 0;
    Item(e.account,
         match e.kind
         case BetKind => Bet(e.id, amount)
         case WinKind => Win(e.id, amount)
         case RollbackKind => Rollback(e.id, if e.original.Some? then e.original.value else 0))
  }

  ghost function ItemsOf(who: Account, orders: seq<Order>): set<Item> {
    set o | o in orders :: Item(who, o.action)
  }

  /** Everything the committed requests of a run delivered. */
  ghost function Delivered(db: Tables, events: seq<Event>): set<Item> {
    if |events| == 0 then {}
    else
      var n := |events| - 1;
      Delivered(db, events[..n])
        + match events[n]
          case Batch(_) => {}
          case Request(who, orders) => if Serve(Run(db, events[..n]), who, orders).Done? then ItemsOf(who, orders) else {}
  }

  ghost predicate Names(p: Item, id: ActionId) {
    p.action.Rollback? && p.action.original == id
  }

  ghost predicate Named(d: set<Item>, id: ActionId) {
    exists p | p in d :: Names(p, id)
  }

  /** The items that account `a` delivered. */
  ghost function Own(d: set<Item>, a: Account): set<Item> {
    set p | p in d && p.account == a
  }

  /** An item of `a`, or a rollback that names one. */
  ghost predicate Concerns(d: set<Item>, a: Account, p: Item) {
    p.account == a || exists q | q in d :: q.account == a && Names(p, q.action.id)
  }

  // The hypotheses about one account; what other accounts do among themselves is left open.

  /** The id of an item that concerns `a` is used for no other item. */
  ghost predicate OneUse(d: set<Item>, a: Account) {
    forall p, q | p in d && q in d && p.action.id == q.action.id && Concerns(d, a, p) :: p == q
  }

  /** No rollback names a rollback of `a`. */
  ghost predicate NoChains(d: set<Item>, a: Account) {
    forall p, q | p in d && q in d && q.account == a && Names(p, q.action.id) :: !q.action.Rollback?
  }

  /** `a` rolls back its own actions only, and nobody else does. */
  ghost predicate OwnRollbacks(d: set<Item>, a: Account) {
    forall p, q | p in d && q in d && Names(p, q.action.id) && (p.account == a || q.account == a) :: p.account == q.account
  }

  /** What a rollback of `a` names, delivered or not, is named by `a` alone. */
  ghost predicate OwnOriginals(d: set<Item>, a: Account) {
    forall p, q | p in d && q in d && p.account == a && p.action.Rollback? && Names(q, p.action.original) :: q.account == a
  }

  /** What one delivered bet or win is worth in the reports, given all that was delivered. */
  ghost function Worth(p: Item, d: set<Item>, m: Measure): int {
    if p.action.Rollback? then 0
    else if Named(d, p.action.id) then RolledBackColumns(KindOf(p.action), p.action.amount).At(m)
    else AppliedColumns(KindOf(p.action), p.action.amount).At(m)
  }

  ghost function TotalWorth(s: set<Item>, d: set<Item>, m: Measure): int {
    if s == {} then 0
    else
      var p :| p in s;
      Worth(p, d, m) + TotalWorth(s - {p}, d, m)
  }

  lemma {:induction false} TotalWorthAdd(s: set<Item>, p: Item, d: set<Item>, m: Measure)
    requires p !in s
    ensures TotalWorth(s + {p}, d, m) == TotalWorth(s, d, m) + Worth(p, d, m)
  {
    var t := s + {p};
    var c :| c in t && TotalWorth(t, d, m) == Worth(c, d, m) + TotalWorth(t - {c}, d, m);
    if c == p {
      assert t - {c} == s;
    } else {
      assert t - {c} == (s - {c}) + {p};
      TotalWorthAdd(s - {c}, p, d, m);
      assert s == (s - {c}) + {c};
      TotalWorthAdd(s - {c}, c, d, m);
    }
  }

  lemma {:induction false} SameWorth(s: set<Item>, d: set<Item>, e: set<Item>, m: Measure)
    requires forall p | p in s :: Named(d, p.action.id) == Named(e, p.action.id)
    ensures TotalWorth(s, d, m) == TotalWorth(s, e, m)
  {
    if s != {} {
      var p :| p in s;
      SameWorth(s - {p}, d, e, m);
      assert s == (s - {p}) + {p};
      TotalWorthAdd(s - {p}, p, d, m);
      TotalWorthAdd(s - {p}, p, e, m);
    }
  }

  /** When accounts keep to their own, what an account's items are worth depends on its own items only. */
  lemma OwnWorth(d: set<Item>, a: Account, m: Measure)
    requires OwnRollbacks(d, a)
    ensures TotalWorth(Own(d, a), d, m) == TotalWorth(Own(d, a), Own(d, a), m)
  {
    forall p | p in Own(d, a)
      ensures Named(d, p.action.id) == Named(Own(d, a), p.action.id)
    {
      if Named(d, p.action.id) {
        var q :| q in d && Names(q, p.action.id);
        assert q in Own(d, a);
      }
    }
    SameWorth(Own(d, a), d, Own(d, a), m);
  }

  /** Ledger rows are delivered items, and those that concern `a` all have their row. */
  ghost predicate Records(ledger: seq<Entry>, d: set<Item>, a: Account) {
    && (forall i | 0 <= i < |ledger| :: ItemOf(ledger[i]) in d)
    && (forall p {:trigger RowOf(ledger, p)} | p in d && Concerns(d, a, p) :: RowOf(ledger, p).Some?)
  }

  function RowOf(ledger: seq<Entry>, p: Item): (r: Option<nat>)
    ensures r.Some? ==> r.value < |ledger| && ItemOf(ledger[r.value]) == p
  {
    var r := Find(ledger, p.action.id);
    if r.Some? && ItemOf(ledger[r.value]) == p then r else None
  }

  lemma {:induction false} ApplyAllRecords(db: Tables, who: Account, orders: seq<Order>, d: set<Item>)
    requires ApplyAll(db, who, orders).Done? && forall i | 0 <= i < |db.ledger| :: ItemOf(db.ledger[i]) in d
    ensures var end := ApplyAll(db, who, orders).db;
      forall i | 0 <= i < |end.ledger| :: ItemOf(end.ledger[i]) in d + ItemsOf(who, orders)
  {
    if |orders| > 0 {
      var n := |orders| - 1;
      ApplyAllRecords(db, who, orders[..n], d);
      ItemsGrow(who, orders);
      ApplyRecords(ApplyAll(db, who, orders[..n]).db, who, orders[n], d + ItemsOf(who, orders));
    }
  }

  lemma ItemsGrow(who: Account, orders: seq<Order>)
    requires |orders| > 0
    ensures ItemsOf(who, orders[..|orders| - 1]) <= ItemsOf(who, orders)
    ensures Item(who, orders[|orders| - 1].action) in ItemsOf(who, orders)
  {
    assert orders[|orders| - 1] in orders && forall o | o in orders[..|orders| - 1] :: o in orders;
  }

  lemma ApplyRecords(db: Tables, who: Account, o: Order, d: set<Item>)
    requires Apply(db, who, o).Done? && Item(who, o.action) in d
    requires forall i | 0 <= i < |db.ledger| :: ItemOf(db.ledger[i]) in d
    ensures forall i | 0 <= i < |Apply(db, who, o).db.ledger| :: ItemOf(Apply(db, who, o).db.ledger[i]) in d
  {
  }

  /** Every ledger row is a delivered item, and every delivered id is registered. */
  lemma {:induction false} RunRecords(db: Tables, events: seq<Event>)
    requires |db.ledger| == 0
    ensures var end := Run(db, events);
      && (forall i | 0 <= i < |end.ledger| :: ItemOf(end.ledger[i]) in Delivered(db, events))
      && (forall p | p in Delivered(db, events) :: p.action.id in end.registry)
  {
    if |events| > 0 {
      var n := |events| - 1;
      var mid := Run(db, events[..n]);
      RunRecords(db, events[..n]);
      RunRemembers(db, events, n);
      if events[n].Request? && Serve(mid, events[n].who, events[n].orders).Done? {
        ApplyAllRecords(Open(mid, events[n].who), events[n].who, events[n].orders, Delivered(db, events[..n]));
        ApplyAllRemembers(Open(mid, events[n].who), events[n].who, events[n].orders);
      }
    }
  }

  lemma LedgerRecords(db: Tables, events: seq<Event>, a: Account)
    requires |db.ledger| == 0 && Good(db) && ValidRun(db, events) && OneUse(Delivered(db, events), a)
    ensures Good(Run(db, events)) && Records(Run(db, events).ledger, Delivered(db, events), a)
  {
    RunKeepsGood(db, events);
    RunRecords(db, events);
    RecordsAll(Run(db, events), Delivered(db, events), a);
  }

  lemma RecordsAll(db: Tables, d: set<Item>, a: Account)
    requires Registered(db.registry, db.ledger) && OneUse(d, a)
    requires forall i | 0 <= i < |db.ledger| :: ItemOf(db.ledger[i]) in d
    requires forall p | p in d :: p.action.id in db.registry
    ensures Records(db.ledger, d, a)
  {
    forall p | p in d && Concerns(d, a, p)
      ensures RowOf(db.ledger, p).Some?
    {
      assert Find(db.ledger, p.action.id).Some?;
      RowOfItem(db.ledger, d, a, p);
    }
  }

  lemma RowOfItem(ledger: seq<Entry>, d: set<Item>, a: Account, p: Item)
    requires OneUse(d, a) && p in d && Concerns(d, a, p) && Find(ledger, p.action.id).Some?
    requires ItemOf(ledger[Find(ledger, p.action.id).value]) in d
    ensures RowOf(ledger, p).Some?
  {
  }

  /** An account's original counts as rolled back iff some delivered rollback names it, in whatever order
      they came. */
  lemma RolledBackIffNamed(db: Tables, d: set<Item>, a: Account, i: nat)
    requires Lawful(db) && Records(db.ledger, d, a) && i < |db.ledger|
    requires db.ledger[i].kind != RollbackKind && db.ledger[i].account == a
    ensures db.ledger[i].status == Applied && db.ledger[i].rolledBackBy.None? <==> !Named(d, db.ledger[i].id)
  {
    var id := db.ledger[i].id;
    assert WellShaped(db.ledger[i]);
    if id in db.intents {
      assert Written(db.intents, db.ledger, id);
      var j := Find(db.ledger, db.intents[id].rollback).value;
      assert ItemOf(db.ledger[j]) in d && Names(ItemOf(db.ledger[j]), id);
    }
    if Named(d, id) {
      var p :| p in d && Names(p, id);
      assert ItemOf(db.ledger[i]).action.id == id;
      RecordedHasIntent(db, d, a, p);
    }
  }

  lemma RecordedHasIntent(db: Tables, d: set<Item>, a: Account, p: Item)
    requires Lawful(db) && Records(db.ledger, d, a) && p in d && Concerns(d, a, p) && p.action.Rollback?
    ensures p.action.original in db.intents
  {
    assert RowOf(db.ledger, p).Some?;
    var j := RowOf(db.ledger, p).value;
    assert WellShaped(db.ledger[j]) && Recorded(db.intents, db.ledger[j]);
  }

  ghost function OwnRows(ledger: seq<Entry>, n: nat, a: Account): set<Item>
    requires n <= |ledger|
  {
    set i | 0 <= i < n && ledger[i].account == a :: ItemOf(ledger[i])
  }

  lemma AllOwnItems(ledger: seq<Entry>, d: set<Item>, a: Account)
    requires Records(ledger, d, a)
    ensures OwnRows(ledger, |ledger|, a) == Own(d, a)
  {
    forall p | p in Own(d, a)
      ensures p in OwnRows(ledger, |ledger|, a)
    {
      assert Concerns(d, a, p) && RowOf(ledger, p).Some?;
    }
  }

  ghost predicate WorthsRow(e: Entry, d: set<Item>, m: Measure) {
    Worth(ItemOf(e), d, m) == Contribution(e).At(m)
  }

  lemma RowWorth(e: Entry, d: set<Item>, m: Measure)
    requires WellShaped(e) && m != RollbackCount
    requires e.kind != RollbackKind ==> (e.status == Applied && e.rolledBackBy.None? <==> !Named(d, e.id))
    ensures WorthsRow(e, d, m)
  {
  }

  lemma OwnRowsNext(ledger: seq<Entry>, n: nat, a: Account)
    requires UniqueIds(ledger) && 0 < n <= |ledger| && ledger[n - 1].account == a
    ensures ItemOf(ledger[n - 1]) !in OwnRows(ledger, n - 1, a)
    ensures OwnRows(ledger, n, a) == OwnRows(ledger, n - 1, a) + {ItemOf(ledger[n - 1])}
  {
    forall i | 0 <= i < n - 1
      ensures ItemOf(ledger[i]).action.id != ItemOf(ledger[n - 1]).action.id
    {
      assert ledger[i].id != ledger[n - 1].id;
    }
  }

  lemma LedgerSumStep(ledger: seq<Entry>, n: nat, a: Account, m: Measure)
    requires 0 < n <= |ledger|
    ensures LedgerSum(ledger[..n], BucketsOf(a), m)
         == LedgerSum(ledger[..n - 1], BucketsOf(a), m)
          + if ledger[n - 1].account == a then Contribution(ledger[n - 1]).At(m) else 0
  {
    assert ledger[..n][..n - 1] == ledger[..n - 1];
  }

  lemma {:induction false} ReportsByWorth(ledger: seq<Entry>, d: set<Item>, n: nat, a: Account, m: Measure)
    requires UniqueIds(ledger) && n <= |ledger|
    requires forall i {:trigger WorthsRow(ledger[i], d, m)} | 0 <= i < |ledger| && ledger[i].account == a ::
               WorthsRow(ledger[i], d, m)
    ensures LedgerSum(ledger[..n], BucketsOf(a), m) == TotalWorth(OwnRows(ledger, n, a), d, m)
  {
    if n > 0 {
      ReportsByWorth(ledger, d, n - 1, a, m);
      LedgerSumStep(ledger, n, a, m);
      if ledger[n - 1].account == a {
        OwnRowsNext(ledger, n, a);
        TotalWorthAdd(OwnRows(ledger, n - 1, a), ItemOf(ledger[n - 1]), d, m);
        assert WorthsRow(ledger[n - 1], d, m);
      } else {
        assert OwnRows(ledger, n, a) == OwnRows(ledger, n - 1, a);
      }
    }
  }

  /** The originals that the rollbacks of `a` name. */
  ghost function NamedBy(d: set<Item>, a: Account): set<ActionId> {
    set p | p in d && p.action.Rollback? && p.account == a :: p.action.original
  }

  predicate Counts(e: Entry, a: Account) {
    e.kind == RollbackKind && e.status != NoopAlreadyRolledBack && e.account == a && e.original.Some?
  }

  ghost function CountedOriginals(ledger: seq<Entry>, n: nat, a: Account): set<ActionId>
    requires n <= |ledger|
  {
    set i | 0 <= i < n && Counts(ledger[i], a) :: ledger[i].original.value
  }

  lemma CountedOnce(db: Tables, i: nat, j: nat, a: Account)
    requires UniqueIds(db.ledger) && IntentsMatch(db.intents, db.ledger) && i < j < |db.ledger|
    requires Counts(db.ledger[i], a) && Counts(db.ledger[j], a)
    ensures db.ledger[i].original != db.ledger[j].original
  {
    assert Recorded(db.intents, db.ledger[i]) && Recorded(db.intents, db.ledger[j]);
  }

  lemma {:induction false} RollbacksCountOnce(db: Tables, n: nat, a: Account)
    requires UniqueIds(db.ledger) && IntentsMatch(db.intents, db.ledger) && AllWellShaped(db.ledger) && n <= |db.ledger|
    ensures LedgerSum(db.ledger[..n], BucketsOf(a), RollbackCount) == |CountedOriginals(db.ledger, n, a)|
  {
    if n > 0 {
      RollbacksCountOnce(db, n - 1, a);
      assert db.ledger[..n][..n - 1] == db.ledger[..n - 1];
      CountedNext(db, n - 1, a);
      assert WellShaped(db.ledger[n - 1]);
      CountOfRow(db.ledger[n - 1], a);
    }
  }

  lemma CountOfRow(e: Entry, a: Account)
    requires WellShaped(e)
    ensures (if BucketOf(e) in BucketsOf(a) then Contribution(e).At(RollbackCount) else 0) == if Counts(e, a) then 1 else 0
  {
  }

  lemma CountedNext(db: Tables, n: nat, a: Account)
    requires UniqueIds(db.ledger) && IntentsMatch(db.intents, db.ledger) && n < |db.ledger|
    ensures |CountedOriginals(db.ledger, n + 1, a)|
         == |CountedOriginals(db.ledger, n, a)| + if Counts(db.ledger[n], a) then 1 else 0
  {
    var before, after := CountedOriginals(db.ledger, n, a), CountedOriginals(db.ledger, n + 1, a);
    if Counts(db.ledger[n], a) {
      var o := db.ledger[n].original.value;
      assert after == before + {o};
      if o in before {
        var i :| 0 <= i < n && Counts(db.ledger[i], a) && db.ledger[i].original.value == o;
        CountedOnce(db, i, n, a);
      }
    } else {
      assert after == before;
    }
  }

  lemma CountedAreNamed(db: Tables, d: set<Item>, a: Account)
    requires Lawful(db) && Records(db.ledger, d, a) && OwnOriginals(d, a)
    ensures CountedOriginals(db.ledger, |db.ledger|, a) == NamedBy(d, a)
  {
    var counted := CountedOriginals(db.ledger, |db.ledger|, a);
    forall o | o in NamedBy(d, a)
      ensures o in counted
    {
      var p :| p in d && Names(p, o) && p.account == a;
      RecordedHasIntent(db, d, a, p);
      assert Written(db.intents, db.ledger, o);
      var j := Find(db.ledger, db.intents[o].rollback).value;
      assert ItemOf(db.ledger[j]) in d && Names(ItemOf(db.ledger[j]), o);
      assert Counts(db.ledger[j], a);
    }
    forall o | o in counted
      ensures o in NamedBy(d, a)
    {
      var i :| 0 <= i < |db.ledger| && Counts(db.ledger[i], a) && db.ledger[i].original.value == o;
      assert ItemOf(db.ledger[i]) in d;
    }
  }

  lemma ReversedOnce(db: Tables, d: set<Item>, a: Account, i: nat)
    requires Lawful(db) && Records(db.ledger, d, a) && NoChains(d, a) && Closed(db.ledger, iset{a})
    requires i < |db.ledger| && db.ledger[i].account == a
    ensures Reversals(db.ledger, i) <= 1
  {
    if db.ledger[i].rolledBackBy.Some? {
      assert Reversed(db.ledger, i);
      var j := Find(db.ledger, db.ledger[i].rolledBackBy.value).value;
      assert db.ledger[j].account == a;
      ReverserIsNotReversed(db.ledger, d, a, j);
    }
  }

  lemma ReverserIsNotReversed(ledger: seq<Entry>, d: set<Item>, a: Account, j: nat)
    requires Linked(ledger) && Records(ledger, d, a) && NoChains(d, a)
    requires j < |ledger| && ledger[j].kind == RollbackKind && ledger[j].account == a
    ensures ledger[j].rolledBackBy.None?
  {
    if ledger[j].rolledBackBy.Some? {
      ReverserNames(ledger, j);
    }
  }

  lemma ReverserNames(ledger: seq<Entry>, j: nat)
    requires Linked(ledger) && j < |ledger| && ledger[j].rolledBackBy.Some?
    ensures exists k | 0 <= k < |ledger| :: Names(ItemOf(ledger[k]), ledger[j].id)
  {
    assert Reversed(ledger, j);
    assert Names(ItemOf(ledger[Find(ledger, ledger[j].rolledBackBy.value).value]), ledger[j].id);
  }

  lemma {:induction false} NothingRevived(ledger: seq<Entry>, n: nat, a: Account)
    requires Linked(ledger) && n <= |ledger|
    requires forall i | 0 <= i < |ledger| && ledger[i].account == a :: Reversals(ledger, i) <= 1
    ensures RevivedSum(ledger, n, a) == 0
  {
    if n > 0 {
      NothingRevived(ledger, n - 1, a);
    }
  }

  lemma AccountIsClosed(db: Tables, d: set<Item>, a: Account)
    requires Records(db.ledger, d, a) && OwnRollbacks(d, a)
    ensures Closed(db.ledger, iset{a})
  {
    forall i, j | 0 <= i < j < |db.ledger| && Reverses(db.ledger[j]) && db.ledger[j].original == Some(db.ledger[i].id)
      ensures db.ledger[i].account == a <==> db.ledger[j].account == a
    {
      assert Names(ItemOf(db.ledger[j]), ItemOf(db.ledger[i]).action.id);
    }
  }

  lemma OwnRowsAreWorth(db: Tables, d: set<Item>, a: Account, m: Measure)
    requires Lawful(db) && Records(db.ledger, d, a) && m != RollbackCount
    ensures LedgerSum(db.ledger, BucketsOf(a), m) == TotalWorth(Own(d, a), d, m)
  {
    forall i | 0 <= i < |db.ledger| && db.ledger[i].account == a
      ensures WorthsRow(db.ledger[i], d, m)
    {
      assert WellShaped(db.ledger[i]);
      if db.ledger[i].kind != RollbackKind {
        RolledBackIffNamed(db, d, a, i);
      }
      RowWorth(db.ledger[i], d, m);
    }
    assert db.ledger[..|db.ledger|] == db.ledger;
    ReportsByWorth(db.ledger, d, |db.ledger|, a, m);
    AllOwnItems(db.ledger, d, a);
  }

  lemma ReportsByItems(db: Tables, events: seq<Event>, a: Account, m: Measure)
    requires |db.ledger| == 0 && Good(db) && ValidRun(db, events)
    requires OneUse(Delivered(db, events), a) && (m == RollbackCount ==> OwnOriginals(Delivered(db, events), a))
    ensures var end, d := Run(db, events), Delivered(db, events);
      Reported(end, BucketsOf(a), m) == if m == RollbackCount then |NamedBy(d, a)| else TotalWorth(Own(d, a), d, m)
  {
    var end, d := Run(db, events), Delivered(db, events);
    LedgerRecords(db, events, a);
    RollupPlusUndrained(end, BucketsOf(a), m);
    assert end.ledger[..|end.ledger|] == end.ledger;
    if m == RollbackCount {
      RollbacksCountOnce(end, |end.ledger|, a);
      CountedAreNamed(end, d, a);
    } else {
      OwnRowsAreWorth(end, d, a, m);
    }
  }

  function AmountOf(p: Item): int {
    if p.action.Rollback? then 0 else p.action.amount
  }

  ghost function AmountSum(s: set<Item>): int {
    if s == {} then 0
    else
      var p :| p in s;
      AmountOf(p) + AmountSum(s - {p})
  }

  lemma {:induction false} AmountSumAdd(s: set<Item>, p: Item)
    requires p !in s
    ensures AmountSum(s + {p}) == AmountSum(s) + AmountOf(p)
  {
    var t := s + {p};
    var c :| c in t && AmountSum(t) == AmountOf(c) + AmountSum(t - {c});
    if c == p {
      assert t - {c} == s;
    } else {
      assert t - {c} == (s - {c}) + {p};
      AmountSumAdd(s - {c}, p);
      assert s == (s - {c}) + {c};
      AmountSumAdd(s - {c}, c);
    }
  }

  /** The bets among the items, or the wins, that some rollback of `d` names, or that none does. */
  ghost function Bets(s: set<Item>, d: set<Item>, named: bool): set<Item> {
    set p | p in s && p.action.Bet? && Named(d, p.action.id) == named
  }

  ghost function Wins(s: set<Item>, d: set<Item>, named: bool): set<Item> {
    set p | p in s && p.action.Win? && Named(d, p.action.id) == named
  }

  /** What the measure `m` amounts to in terms of these. */
  ghost function Tally(s: set<Item>, d: set<Item>, m: Measure): int {
    match m
    case TotalBet => AmountSum(Bets(s, d, false))
    case TotalWin => AmountSum(Wins(s, d, false))
    case Rounds => |Bets(s, d, false)|
    case RollbackCount => 0
    case RolledBackBet => AmountSum(Bets(s, d, true))
    case RolledBackWin => AmountSum(Wins(s, d, true))
  }

  lemma BetsNext(s: set<Item>, p: Item, d: set<Item>, named: bool)
    requires p !in s
    ensures var joins := Named(d, p.action.id) == named;
      && Bets(s + {p}, d, named) == (if joins && p.action.Bet? then Bets(s, d, named) + {p} else Bets(s, d, named))
      && Wins(s + {p}, d, named) == (if joins && p.action.Win? then Wins(s, d, named) + {p} else Wins(s, d, named))
      && p !in Bets(s, d, named) && p !in Wins(s, d, named)
  {
  }

  lemma TallyNext(s: set<Item>, p: Item, d: set<Item>, m: Measure)
    requires p !in s
    ensures Tally(s + {p}, d, m) == Tally(s, d, m) + Worth(p, d, m)
  {
    var named := Named(d, p.action.id);
    BetsNext(s, p, d, named);
    BetsNext(s, p, d, !named);
    AmountSumAdd(Bets(s, d, named), p);
    AmountSumAdd(Wins(s, d, named), p);
  }

  lemma {:induction false} WorthIsTally(s: set<Item>, d: set<Item>, m: Measure)
    ensures TotalWorth(s, d, m) == Tally(s, d, m)
  {
    if s == {} {
      assert Bets(s, d, true) == {} && Bets(s, d, false) == {} && Wins(s, d, true) == {} && Wins(s, d, false) == {};
    } else {
      var p :| p in s;
      WorthIsTally(s - {p}, d, m);
      assert s == (s - {p}) + {p};
      TotalWorthAdd(s - {p}, p, d, m);
      TallyNext(s - {p}, p, d, m);
    }
  }

  lemma ReportIsTally(db: Tables, events: seq<Event>, a: Account, m: Measure)
    requires |db.ledger| == 0 && Good(db) && ValidRun(db, events)
    requires OneUse(Delivered(db, events), a) && m != RollbackCount
    ensures var d := Delivered(db, events); Reported(Run(db, events), BucketsOf(a), m) == Tally(Own(d, a), d, m)
  {
    ReportsByItems(db, events, a, m);
    WorthIsTally(Own(Delivered(db, events), a), Delivered(db, events), m);
  }

  lemma OwnBetsAndWins(d: set<Item>, a: Account, named: bool)
    ensures Bets(Own(d, a), d, named) == set p | p in d && p.account == a && p.action.Bet? && Named(d, p.action.id) == named
    ensures Wins(Own(d, a), d, named) == set p | p in d && p.account == a && p.action.Win? && Named(d, p.action.id) == named
  {
  }

  /** The closed form of the reports of one account, whatever the others do, over rollup and undrained outbox:
      bets and wins are the amounts it delivered that no rollback names, the rolled-back columns those that one
      names, rounds the number of such bets, and the rollback count the number of distinct originals it named. */
  lemma ReportsClosedForm(db: Tables, events: seq<Event>, a: Account)
    requires |db.ledger| == 0 && Good(db) && ValidRun(db, events) && OneUse(Delivered(db, events), a)
    ensures var end, d := Run(db, events), Delivered(db, events);
      var bets := named => set p | p in d && p.account == a && p.action.Bet? && Named(d, p.action.id) == named;
      var wins := named => set p | p in d && p.account == a && p.action.Win? && Named(d, p.action.id) == named;
      && Reported(end, BucketsOf(a), TotalBet) == AmountSum(bets(false))
      && Reported(end, BucketsOf(a), TotalWin) == AmountSum(wins(false))
      && Reported(end, BucketsOf(a), Rounds) == |bets(false)|
      && Reported(end, BucketsOf(a), RolledBackBet) == AmountSum(bets(true))
      && Reported(end, BucketsOf(a), RolledBackWin) == AmountSum(wins(true))
      && (OwnOriginals(d, a) ==>
            Reported(end, BucketsOf(a), RollbackCount)
              == |set p | p in d && p.action.Rollback? && p.account == a :: p.action.original|)
  {
    var d := Delivered(db, events);
    OwnBetsAndWins(d, a, false);
    OwnBetsAndWins(d, a, true);
    ReportIsTally(db, events, a, TotalBet);
    ReportIsTally(db, events, a, TotalWin);
    ReportIsTally(db, events, a, Rounds);
    ReportIsTally(db, events, a, RolledBackBet);
    ReportIsTally(db, events, a, RolledBackWin);
    if OwnOriginals(d, a) {
      ReportsByItems(db, events, a, RollbackCount);
    }
  }

  /** The closed form of one balance: when the account rolls back its own bets and wins only and nobody else
      does, it holds what it opened with plus the wins and minus the bets that none of its rollbacks names.
      Rollbacks of rollbacks among other accounts do not matter. */
  lemma BalanceClosedForm(db: Tables, events: seq<Event>, a: Account)
    requires |db.ledger| == 0 && Good(db) && ValidRun(db, events)
    requires var d := Delivered(db, events); OneUse(d, a) && NoChains(d, a) && OwnRollbacks(d, a)
    ensures var own := set p | p in Delivered(db, events) && p.account == a;
      Balance(Run(db, events), a) == Balance(db, a)
        + AmountSum(set p | p in own && p.action.Win? && !Named(own, p.action.id))
        - AmountSum(set p | p in own && p.action.Bet? && !Named(own, p.action.id))
  {
    var own := Own(Delivered(db, events), a);
    BalanceByItems(db, events, a);
    WorthIsTally(own, own, TotalWin);
    WorthIsTally(own, own, TotalBet);
    assert (set p | p in own && p.action.Win? && !Named(own, p.action.id)) == Wins(own, own, false);
    assert (set p | p in own && p.action.Bet? && !Named(own, p.action.id)) == Bets(own, own, false);
  }

  lemma BalanceByItems(db: Tables, events: seq<Event>, a: Account)
    requires |db.ledger| == 0 && Good(db) && ValidRun(db, events)
    requires var d := Delivered(db, events); OneUse(d, a) && NoChains(d, a) && OwnRollbacks(d, a)
    ensures var own := Own(Delivered(db, events), a);
      Balance(Run(db, events), a) == Balance(db, a) + TotalWorth(own, own, TotalWin) - TotalWorth(own, own, TotalBet)
  {
    var end, d := Run(db, events), Delivered(db, events);
    LedgerRecords(db, events, a);
    AccountIsClosed(end, d, a);
    GainIsReportedPlusRevived(end, a);
    forall i | 0 <= i < |end.ledger| && end.ledger[i].account == a
      ensures Reversals(end.ledger, i) <= 1
    {
      ReversedOnce(end, d, a, i);
    }
    NothingRevived(end.ledger, |end.ledger|, a);
    ReportsByItems(db, events, a, TotalWin);
    ReportsByItems(db, events, a, TotalBet);
    OwnWorth(d, a, TotalWin);
    OwnWorth(d, a, TotalBet);
    RunConserves(db, events, a);
  }

  /** Order independence, account by account: however its actions arrive, in whatever requests, however often
      redelivered, and whatever other accounts do meanwhile, an account ends with the same balance and the
      same report totals. */
  lemma ArrivalOrderIsIrrelevant(db: Tables, one: seq<Event>, other: seq<Event>, a: Account)
    requires |db.ledger| == 0 && Good(db) && ValidRun(db, one) && ValidRun(db, other)
    requires Own(Delivered(db, one), a) == Own(Delivered(db, other), a)
    requires var d := Delivered(db, one); OneUse(d, a) && NoChains(d, a) && OwnRollbacks(d, a) && OwnOriginals(d, a)
    requires var d := Delivered(db, other); OneUse(d, a) && NoChains(d, a) && OwnRollbacks(d, a) && OwnOriginals(d, a)
    ensures Balance(Run(db, one), a) == Balance(Run(db, other), a)
    ensures forall m: Measure :: Reported(Run(db, one), BucketsOf(a), m) == Reported(Run(db, other), BucketsOf(a), m)
  {
    BalanceByItems(db, one, a);
    BalanceByItems(db, other, a);
    forall m: Measure
      ensures Reported(Run(db, one), BucketsOf(a), m) == Reported(Run(db, other), BucketsOf(a), m)
    {
      ReportsByItems(db, one, a, m);
      ReportsByItems(db, other, a, m);
      OwnWorth(Delivered(db, one), a, m);
      OwnWorth(Delivered(db, other), a, m);
      NamedByOwn(Delivered(db, one), a);
      NamedByOwn(Delivered(db, other), a);
    }
  }

  lemma NamedByOwn(d: set<Item>, a: Account)
    ensures NamedBy(d, a) == NamedBy(Own(d, a), a)
  {
  }
}
