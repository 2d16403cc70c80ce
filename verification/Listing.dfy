/** Which accounts the user report lists, and that the whole report is the one recomputed from the ledger. */
module Listing {
  import opened Schema
  import opened Wallet
  import opened LedgerLaws
  import opened Rollup
  import opened Reconciliation
  import opened Runs
  import opened Reports

  /** Every row is of interest to the reports but a rollback that came too late. */
  predicate Contributes(e: Entry) {
    e.status != NoopAlreadyRolledBack
  }

  ghost function LedgerBuckets(ledger: seq<Entry>): set<Bucket> {
    set i | 0 <= i < |ledger| && Contributes(ledger[i]) :: BucketOf(ledger[i])
  }

  ghost function OutboxBuckets(rows: seq<OutboxRow>): set<Bucket> {
    set i | 0 <= i < |rows| :: rows[i].bucket
  }

  ghost function ProcessedBuckets(rows: seq<OutboxRow>): set<Bucket> {
    set i | 0 <= i < |rows| && rows[i].status == Processed :: rows[i].bucket
  }

  /** The rollup has a row for each bucket of a processed outbox row, the outbox one for each bucket of a
      contributing ledger row, and neither has any other. */
  ghost predicate Keyed(db: Tables) {
    db.rollup.Keys == ProcessedBuckets(db.outbox) && OutboxBuckets(db.outbox) == LedgerBuckets(db.ledger)
  }

  /** It holds at the start, when there is nothing to report. */
  lemma SeededIsKeyed(db: Tables)
    requires db.ledger == [] && db.outbox == [] && db.rollup == map[]
    ensures Keyed(db)
  {
  }

  lemma LedgerBucketsNext(ledger: seq<Entry>, mark: Option<ActionId>, e: Entry)
    requires UniqueIds(ledger)
    ensures LedgerBuckets(Marked(ledger, mark, e.id) + [e])
         == LedgerBuckets(ledger) + if Contributes(e) then {BucketOf(e)} else {}
  {
    var next := Marked(ledger, mark, e.id) + [e];
    MarkedRows(ledger, mark, e.id, e);
    forall k | k in LedgerBuckets(ledger)
      ensures k in LedgerBuckets(next)
    {
      var i :| 0 <= i < |ledger| && Contributes(ledger[i]) && BucketOf(ledger[i]) == k;
      assert Contributes(next[i]) && BucketOf(next[i]) == k;
    }
    assert Contributes(e) ==> next[|ledger|] == e && Contributes(next[|ledger|]);
  }

  lemma OutboxBucketsNext(a: seq<OutboxRow>, b: seq<OutboxRow>)
    ensures OutboxBuckets(a + b) == OutboxBuckets(a) + OutboxBuckets(b)
  {
    forall k | k in OutboxBuckets(a)
      ensures k in OutboxBuckets(a + b)
    {
      var i :| 0 <= i < |a| && a[i].bucket == k;
      assert (a + b)[i].bucket == k;
    }
    forall k | k in OutboxBuckets(b)
      ensures k in OutboxBuckets(a + b)
    {
      var i :| 0 <= i < |b| && b[i].bucket == k;
      assert (a + b)[|a| + i].bucket == k;
    }
  }

  lemma ProcessedBucketsNext(a: seq<OutboxRow>, b: seq<OutboxRow>)
    requires forall i | 0 <= i < |b| :: b[i].status != Processed
    ensures ProcessedBuckets(a + b) == ProcessedBuckets(a)
  {
    forall k | k in ProcessedBuckets(a)
      ensures k in ProcessedBuckets(a + b)
    {
      var i :| 0 <= i < |a| && a[i].status == Processed && a[i].bucket == k;
      assert (a + b)[i] == a[i];
    }
  }

  // An action posts to the bucket of its own row, and a reversal also to the bucket of its original.
  lemma PostedBuckets(db: Tables, who: Account, a: Action, s: Stamp)
    requires AllWellShaped(db.ledger)
    ensures var e := EntryOf(db, who, a, s);
      OutboxBuckets(PostsOf(db, who, a, s)) + LedgerBuckets(db.ledger)
        == LedgerBuckets(db.ledger) + if Contributes(e) then {BucketOf(e)} else {}
  {
    var posts := PostsOf(db, who, a, s);
    if a.Rollback? && StatusOf(db, a) == Applied {
      var k := Find(db.ledger, a.original).value;
      assert WellShaped(db.ledger[k]) && Contributes(db.ledger[k]);
      assert BucketOf(db.ledger[k]) in LedgerBuckets(db.ledger);
      assert posts[|posts| - 1].bucket == BucketOf(EntryOf(db, who, a, s));
    } else if |posts| > 0 {
      assert |posts| == 1 && posts[0].bucket == BucketOf(EntryOf(db, who, a, s));
    }
  }

  lemma PlayKeepsKeyed(db: Tables, who: Account, a: Action, s: Stamp)
    requires Keyed(db) && UniqueIds(db.ledger) && AllWellShaped(db.ledger)
    ensures Keyed(Play(db, Judge(db, who, a, s)))
  {
    var x := Judge(db, who, a, s);
    LedgerBucketsNext(db.ledger, x.mark, x.entry);
    OutboxBucketsNext(db.outbox, x.posts);
    ProcessedBucketsNext(db.outbox, x.posts);
    PostedBuckets(db, who, a, s);
  }

  lemma {:induction false} ApplyAllKeepsKeyed(db: Tables, who: Account, orders: seq<Order>)
    requires Good(db) && FreshOrders(db, orders) && Admissible(db, who, orders) && ApplyAll(db, who, orders).Done?
    requires Keyed(db)
    ensures Keyed(ApplyAll(db, who, orders).db)
  {
    if |orders| > 0 {
      var n := |orders| - 1;
      BeforeLast(db, who, orders);
      ApplyAllKeepsKeyed(db, who, orders[..n]);
      var mid := ApplyAll(db, who, orders[..n]).db;
      if orders[n].action.id !in mid.registry {
        PlayKeepsKeyed(mid, who, orders[n].action, orders[n].stamp);
      }
    }
  }

  lemma DrainedBuckets(rows: seq<OutboxRow>, ids: set<nat>)
    ensures OutboxBuckets(SetStatus(rows, ids, Processed)) == OutboxBuckets(rows)
    ensures ProcessedBuckets(SetStatus(rows, ids, Processed)) == ProcessedBuckets(rows) + Buckets(rows, ids)
  {
    var after := SetStatus(rows, ids, Processed);
    forall k | k in OutboxBuckets(rows)
      ensures k in OutboxBuckets(after)
    {
      var i :| 0 <= i < |rows| && rows[i].bucket == k;
      assert after[i].bucket == k;
    }
    forall k | k in ProcessedBuckets(rows) + Buckets(rows, ids)
      ensures k in ProcessedBuckets(after)
    {
      var i :| 0 <= i < |rows| && rows[i].bucket == k && (rows[i].status == Processed || rows[i].id in ids);
      assert after[i].status == Processed && after[i].bucket == k;
    }
    forall k | k in ProcessedBuckets(after)
      ensures k in ProcessedBuckets(rows) + Buckets(rows, ids)
    {
      var i :| 0 <= i < |after| && after[i].status == Processed && after[i].bucket == k;
      assert rows[i] in rows;
    }
  }

  lemma DrainKeepsKeyed(db: Tables, ids: set<nat>)
    requires Keyed(db)
    ensures Keyed(DrainBatch(db, ids))
  {
    DrainedBuckets(db.outbox, ids);
  }

  /** The keys agree in every reachable state. */
  lemma {:induction false} RunKeepsKeyed(db: Tables, events: seq<Event>)
    requires Good(db) && Keyed(db) && ValidRun(db, events)
    ensures Keyed(Run(db, events))
  {
    if |events| > 0 {
      var n := |events| - 1;
      var mid := Run(db, events[..n]);
      RunKeepsKeyed(db, events[..n]);
      RunKeepsGood(db, events[..n]);
      match events[n]
      case Batch(ids) => DrainKeepsKeyed(mid, ids);
      case Request(who, orders) =>
        if Serve(mid, who, orders).Done? {
          OpenKeepsFresh(mid, who, orders);
          ApplyAllKeepsKeyed(Open(mid, who), who, orders);
        }
    }
  }

  lemma DrainedKeys(db: Tables)
    requires Keyed(db) && RolledUp(db) && PendingIds(db.outbox) == {}
    ensures db.rollup.Keys == LedgerBuckets(db.ledger)
  {
    PendingRowsHaveIds(db.outbox);
    forall k | k in OutboxBuckets(db.outbox)
      ensures k in ProcessedBuckets(db.outbox)
    {
      var i :| 0 <= i < |db.outbox| && db.outbox[i].bucket == k;
      assert db.outbox[i].status == Processed;
    }
  }

  /** The accounts with a contributing ledger row created in the window, and accepted by the filters. */
  ghost function ActiveAccounts(ledger: seq<Entry>, q: Query): set<Account> {
    set i | 0 <= i < |ledger| && Contributes(ledger[i]) && q.from <= ledger[i].createdAt < q.to
      && (q.currency.None? || ledger[i].account.currency == q.currency.value)
      && (q.user.None? || ledger[i].account.user == q.user.value) :: ledger[i].account
  }

  ghost function RecomputedColumns(ledger: seq<Entry>, q: Query): (r: Columns)
    ensures forall m: Measure :: r.At(m) == RecomputedSum(ledger, q, m)
  {
    Columns(RecomputedSum(ledger, q, TotalBet), RecomputedSum(ledger, q, TotalWin), RecomputedSum(ledger, q, Rounds),
            RecomputedSum(ledger, q, RollbackCount), RecomputedSum(ledger, q, RolledBackBet),
            RecomputedSum(ledger, q, RolledBackWin))
  }

  /** The user report as one would compute it from the ledger alone. */
  ghost function RecomputedReport(ledger: seq<Entry>, q: Query): (r: seq<RtpRow>)
    ensures |r| == |Sorted(ActiveAccounts(ledger, q))|
  {
    var who := Sorted(ActiveAccounts(ledger, q));
    seq(|who|, i requires 0 <= i < |who| =>
      var c := RecomputedColumns(ledger, q.(currency := Some(who[i].currency), user := Some(who[i].user)));
      RtpRow(Some(who[i]), c, if c.totalBet == 0 then None else Some(Ratio(c.totalWin, c.totalBet))))
  }

  lemma RowInWindow(e: Entry, q: Query)
    requires q.from % 60_000_000 == 0 && q.to % 60_000_000 == 0
    ensures InWindow(q, BucketOf(e)) <==>
      q.from <= e.createdAt < q.to && (q.currency.None? || e.account.currency == q.currency.value)
      && (q.user.None? || e.account.user == q.user.value)
  {
    MinuteBoundaries(e.createdAt, q.from);
    MinuteBoundaries(e.createdAt, q.to);
    assert NextMinute(q.from) == q.from && NextMinute(q.to) == q.to;
  }

  lemma ListedAreActive(db: Tables, q: Query)
    requires Keyed(db) && RolledUp(db) && PendingIds(db.outbox) == {}
    requires q.from % 60_000_000 == 0 && q.to % 60_000_000 == 0
    ensures (set k | k in db.rollup && InWindow(q, k) :: k.account) == ActiveAccounts(db.ledger, q)
  {
    DrainedKeys(db);
    var listed, active := set k | k in db.rollup && InWindow(q, k) :: k.account, ActiveAccounts(db.ledger, q);
    forall a | a in listed
      ensures a in active
    {
      var k :| k in db.rollup && InWindow(q, k) && k.account == a;
      var i :| 0 <= i < |db.ledger| && Contributes(db.ledger[i]) && BucketOf(db.ledger[i]) == k;
      RowInWindow(db.ledger[i], q);
    }
    forall a | a in active
      ensures a in listed
    {
      var i :| 0 <= i < |db.ledger| && Contributes(db.ledger[i]) && q.from <= db.ledger[i].createdAt < q.to
        && (q.currency.None? || db.ledger[i].account.currency == q.currency.value)
        && (q.user.None? || db.ledger[i].account.user == q.user.value) && db.ledger[i].account == a;
      RowInWindow(db.ledger[i], q);
      assert BucketOf(db.ledger[i]) in db.rollup;
    }
  }

  /** The report lists an account iff it passes the filters and the ledger has a row of it, created in the
      window, that is not a late rollback. */
  lemma ListedIffActive(db: Tables, q: Query, a: Account)
    requires Keyed(db) && RolledUp(db) && PendingIds(db.outbox) == {}
    requires q.from % 60_000_000 == 0 && q.to % 60_000_000 == 0
    ensures var rows := UserRows(db.rollup, q);
      (exists i | 0 <= i < |rows| :: rows[i].account == Some(a))
      <==> (q.currency.None? || a.currency == q.currency.value) && (q.user.None? || a.user == q.user.value)
           && exists i | 0 <= i < |db.ledger| ::
                db.ledger[i].account == a && q.from <= db.ledger[i].createdAt < q.to
                && db.ledger[i].status != NoopAlreadyRolledBack
  {
    ListedAreActive(db, q);
    UserRowsAreOrdered(db.rollup, q);
    AccountInWindow(db.rollup, q, a);
    assert a in (set k | k in db.rollup && InWindow(q, k) :: k.account)
      <==> exists k | k in db.rollup && InWindow(q, k) :: k.account == a;
    ActiveIffRow(db.ledger, q, a);
  }

  lemma ActiveIffRow(ledger: seq<Entry>, q: Query, a: Account)
    ensures a in ActiveAccounts(ledger, q)
       <==> (q.currency.None? || a.currency == q.currency.value) && (q.user.None? || a.user == q.user.value)
            && exists i | 0 <= i < |ledger| ::
                 ledger[i].account == a && q.from <= ledger[i].createdAt < q.to && ledger[i].status != NoopAlreadyRolledBack
  {
    if exists i | 0 <= i < |ledger| ::
      ledger[i].account == a && q.from <= ledger[i].createdAt < q.to && ledger[i].status != NoopAlreadyRolledBack
    {
      var i :| 0 <= i < |ledger|
        && ledger[i].account == a && q.from <= ledger[i].createdAt < q.to && ledger[i].status != NoopAlreadyRolledBack;
      assert Contributes(ledger[i]);
    }
  }

  lemma RowIsRecomputed(db: Tables, q: Query, i: nat)
    requires Balanced(db) && PendingIds(db.outbox) == {} && i < |UserRows(db.rollup, q)|
    requires q.from % 60_000_000 == 0 && q.to % 60_000_000 == 0
    ensures var a := ReportAccounts(db.rollup, q)[i];
      UserRows(db.rollup, q)[i] == RowFor(Some(a), RecomputedColumns(db.ledger, Own(q, a)))
  {
    var a := ReportAccounts(db.rollup, q)[i];
    var c := SumColumns(db.rollup, Group(q, a));
    RowIsWindow(db.rollup, q, i);
    forall m: Measure
      ensures c.At(m) == RecomputedColumns(db.ledger, Own(q, a)).At(m)
    {
      DrainedReportIsExact(db, Own(q, a), m);
      assert UserRows(db.rollup, q)[i].columns == c;
    }
    SameColumns(c, RecomputedColumns(db.ledger, Own(q, a)));
  }

  /** End to end: with a drained outbox and an aligned window, every page of the user report is that page of
      the report recomputed from the ledger, accounts, order, columns and ratios included. */
  lemma UserReportIsExact(db: Tables, q: Query, limit: nat, offset: nat)
    requires Good(db) && Keyed(db) && PendingIds(db.outbox) == {}
    requires q.from % 60_000_000 == 0 && q.to % 60_000_000 == 0
    ensures UserReport(db.rollup, q, limit, offset) == Page(RecomputedReport(db.ledger, q), limit, offset)
  {
    ListedAreActive(db, q);
    forall i | 0 <= i < |UserRows(db.rollup, q)|
      ensures UserRows(db.rollup, q)[i] == RecomputedReport(db.ledger, q)[i]
    {
      RowIsRecomputed(db, q, i);
    }
    assert UserRows(db.rollup, q) == RecomputedReport(db.ledger, q);
  }

  /** So it is in every drained state that a run reaches. */
  lemma ReachedUserReportIsExact(db: Tables, events: seq<Event>, q: Query, limit: nat, offset: nat)
    requires Good(db) && Keyed(db) && ValidRun(db, events) && PendingIds(Run(db, events).outbox) == {}
    requires q.from % 60_000_000 == 0 && q.to % 60_000_000 == 0
    ensures UserReport(Run(db, events).rollup, q, limit, offset)
         == Page(RecomputedReport(Run(db, events).ledger, q), limit, offset)
  {
    RunKeepsGood(db, events);
    RunKeepsKeyed(db, events);
    UserReportIsExact(Run(db, events), q, limit, offset);
  }

  /** In particular in every drained state that is reached from seeded balances and nothing else. */
  lemma SeededUserReportIsExact(db: Tables, events: seq<Event>, q: Query, limit: nat, offset: nat)
    requires db == Tables(db.accounts, map[], [], map[], [], map[]) && forall a | a in db.accounts :: db.accounts[a] >= 0
    requires ValidRun(db, events) && PendingIds(Run(db, events).outbox) == {}
    requires q.from % 60_000_000 == 0 && q.to % 60_000_000 == 0
    ensures UserReport(Run(db, events).rollup, q, limit, offset)
         == Page(RecomputedReport(Run(db, events).ledger, q), limit, offset)
  {
    SeededIsGood(db);
    SeededIsKeyed(db);
    ReachedUserReportIsExact(db, events, q, limit, offset);
  }
}
