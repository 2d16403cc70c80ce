/** When an account's balance and its reports move together: exactly when no applied rollback reverses
    another rollback or another account's action. */
module Agreement {
  import opened Schema
  import opened Wallet
  import opened LedgerLaws
  import opened Reconciliation
  import opened Runs
  import opened ClosedForm

  /** Wins minus bets of an account, over rollup and undrained outbox. */
  ghost function Net(db: Tables, a: Account): int {
    Reported(db, BucketsOf(a), TotalWin) - Reported(db, BucketsOf(a), TotalBet)
  }

  /** The row that an action, if it is an applied rollback, reverses. */
  function Target(db: Tables, a: Action): Option<Entry> {
    if a.Rollback? && StatusOf(db, a) == Applied then Lookup(db.ledger, a.original) else None
  }

  ghost function NetPosted(posts: seq<OutboxRow>, a: Account): int {
    OutboxSum(posts, BucketsOf(a), ANY_STATUS, TotalWin) - OutboxSum(posts, BucketsOf(a), ANY_STATUS, TotalBet)
  }

  lemma NetFollowsPosts(db: Tables, who: Account, a: Action, s: Stamp, b: Account)
    requires Good(db) && Claimable(db, a, s) && FreshOut(db, s)
    ensures Net(Play(db, Judge(db, who, a, s)), b) == Net(db, b) + NetPosted(PostsOf(db, who, a, s), b)
  {
    var end := Play(db, Judge(db, who, a, s));
    PlayKeepsBalanced(db, who, a, s);
    forall m: Measure
      ensures Reported(end, BucketsOf(b), m)
           == Reported(db, BucketsOf(b), m) + OutboxSum(PostsOf(db, who, a, s), BucketsOf(b), ANY_STATUS, m)
    {
      RollupPlusUndrained(db, BucketsOf(b), m);
      RollupPlusUndrained(end, BucketsOf(b), m);
      PostsMatchLedger(db, who, a, s, BucketsOf(b), m);
    }
  }

  lemma PostedOriginal(db: Tables, who: Account, a: Action, s: Stamp, b: Account)
    requires Target(db, a).None?
    ensures NetPosted(PostsOf(db, who, a, s), b) == if b == who then DeltaOf(db, a) else 0
  {
    SumOfPosts(PostsOf(db, who, a, s), BucketsOf(b), TotalWin);
    SumOfPosts(PostsOf(db, who, a, s), BucketsOf(b), TotalBet);
  }

  lemma PostedReversal(db: Tables, who: Account, a: Action, s: Stamp, b: Account)
    requires Target(db, a).Some? && AllWellShaped(db.ledger)
    ensures var e := Target(db, a).value;
      NetPosted(PostsOf(db, who, a, s), b) == if e.kind != RollbackKind && b == e.account then -e.delta else 0
  {
    assert WellShaped(db.ledger[Find(db.ledger, a.original).value]);
    SumOfPosts(PostsOf(db, who, a, s), BucketsOf(b), TotalWin);
    SumOfPosts(PostsOf(db, who, a, s), BucketsOf(b), TotalBet);
  }

  /** What the reports of account `b` miss of the money it gained so far. */
  ghost function Gap(db: Tables, b: Account): int {
    Balance(db, b) - Net(db, b)
  }

  /** The money of an applied rollback goes to the requesting account, its report to the account of the
      original, and the report of a reversed rollback to nobody. */
  lemma GapOfOneAction(db: Tables, who: Account, a: Action, s: Stamp, b: Account)
    requires Good(db) && Claimable(db, a, s) && FreshOut(db, s)
    ensures Gap(Play(db, Judge(db, who, a, s)), b) == Gap(db, b) +
      match Target(db, a)
      case None => 0
      case Some(e) =>
        (if b == who then -e.delta else 0) + (if b == e.account && e.kind != RollbackKind then e.delta else 0)
  {
    NetFollowsPosts(db, who, a, s, b);
    if Target(db, a).None? {
      PostedOriginal(db, who, a, s, b);
    } else {
      PostedReversal(db, who, a, s, b);
    }
  }

  /** An action moves every account's balance and report alike iff it is not an applied rollback of a
      rollback or of another account's action. */
  lemma MoneyMatchesReport(db: Tables, who: Account, a: Action, s: Stamp)
    requires Good(db) && Claimable(db, a, s) && FreshOut(db, s)
    ensures (forall b :: Gap(Play(db, Judge(db, who, a, s)), b) == Gap(db, b))
       <==> match Target(db, a) case None => true case Some(e) => e.kind != RollbackKind && e.account == who
  {
    forall b: Account
      ensures Gap(Play(db, Judge(db, who, a, s)), b) == Gap(db, b)
         <==> match Target(db, a)
              case None => true
              case Some(e) => (b == who) == (b == e.account && e.kind != RollbackKind)
    {
      GapOfOneAction(db, who, a, s, b);
      if Target(db, a).Some? {
        assert WellShaped(db.ledger[Find(db.ledger, a.original).value]);
      }
    }
    assert Gap(Play(db, Judge(db, who, a, s)), who) == Gap(db, who)
      <==> match Target(db, a) case None => true case Some(e) => e.account == who && e.kind != RollbackKind;
  }

  /** A bet, its rollback, the rollback of that one, and so on. */
  function ChainOrder(amount: int, i: nat): Order {
    Order(if i == 0 then Bet(1, amount) else Rollback(i + 1, i), Stamp(i + 1, 0, 2 * i + 1, 2 * i + 2))
  }

  function ChainOrders(amount: int, n: nat): seq<Order> {
    seq(n, i requires 0 <= i < n => ChainOrder(amount, i))
  }

  function ChainRow(who: Account, amount: int, i: nat, reversed: bool): Entry {
    Entry(i + 1, i + 1, who, if i == 0 then BetKind else RollbackKind, if i == 0 then Some(amount) else None,
          if i == 0 then None else Some(i), if i % 2 == 0 then -amount else amount, Applied,
          if reversed then Some(i + 2) else None, 0)
  }

  /** The first `n` of these orders were applied, each reversing the one before it. */
  ghost predicate ChainSoFar(db: Tables, who: Account, amount: int, opening: int, n: nat) {
    && |db.ledger| == n && (forall i | 0 <= i < n :: db.ledger[i] == ChainRow(who, amount, i, i + 1 < n))
    && (forall id | id in db.registry :: id <= n) && (forall id | id in db.intents :: id < n)
    && who in db.accounts && db.accounts[who] == opening - if n % 2 == 1 then amount else 0
  }

  lemma ChainTarget(db: Tables, who: Account, amount: int, opening: int, n: nat)
    requires n > 0 && ChainSoFar(db, who, amount, opening, n)
    ensures Find(db.ledger, n) == Some(n - 1)
  {
    assert UniqueIds(db.ledger);
    FindAt(db.ledger, n - 1);
  }

  lemma ChainStatus(db: Tables, who: Account, amount: int, opening: int, n: nat)
    requires 0 < amount <= opening && ChainSoFar(db, who, amount, opening, n)
    ensures var a := ChainOrder(amount, n).action;
      StatusOf(db, a) == Applied && DeltaOf(db, a) == if n % 2 == 0 then -amount else amount
  {
    if n > 0 {
      ChainTarget(db, who, amount, opening, n);
      var target := db.ledger[n - 1];
      assert Lookup(db.ledger, n) == Some(target) && target.status == Applied;
      assert target.delta == if n % 2 == 0 then amount else -amount;
    }
  }

  lemma ChainVerdict(db: Tables, who: Account, amount: int, opening: int, n: nat)
    requires 0 < amount <= opening && ChainSoFar(db, who, amount, opening, n)
    ensures var o := ChainOrder(amount, n); var x := Judge(db, who, o.action, o.stamp);
      && o.action.id !in db.registry && x.entry == ChainRow(who, amount, n, false)
      && x.mark == (if n == 0 then None else Some(n)) && x.tombstone == x.mark
      && x.balance == opening - if n % 2 == 0 then amount else 0
  {
    ChainStatus(db, who, amount, opening, n);
  }

  lemma ChainGrows(ledger: seq<Entry>, who: Account, amount: int, n: nat)
    requires |ledger| == n && forall i | 0 <= i < n :: ledger[i] == ChainRow(who, amount, i, i + 1 < n)
    ensures var next := Marked(ledger, if n == 0 then None else Some(n), n + 1) + [ChainRow(who, amount, n, false)];
      |next| == n + 1 && forall i | 0 <= i < n + 1 :: next[i] == ChainRow(who, amount, i, i + 1 < n + 1)
  {
    assert UniqueIds(ledger);
    MarkedRows(ledger, if n == 0 then None else Some(n), n + 1, ChainRow(who, amount, n, false));
  }

  lemma ChainStep(db: Tables, who: Account, amount: int, opening: int, n: nat)
    requires 0 < amount <= opening && ChainSoFar(db, who, amount, opening, n)
    ensures var next := Apply(db, who, ChainOrder(amount, n)); next.Done? && ChainSoFar(next.db, who, amount, opening, n + 1)
  {
    ChainVerdict(db, who, amount, opening, n);
    ChainGrows(db.ledger, who, amount, n);
  }

  lemma {:induction false} ChainIsServed(db: Tables, who: Account, amount: int, n: nat)
    requires who in db.accounts && 0 < amount <= db.accounts[who] && ChainSoFar(db, who, amount, db.accounts[who], 0)
    ensures var r := ApplyAll(db, who, ChainOrders(amount, n)); r.Done? && ChainSoFar(r.db, who, amount, db.accounts[who], n)
  {
    if n > 0 {
      ChainIsServed(db, who, amount, n - 1);
      assert ChainOrders(amount, n)[..n - 1] == ChainOrders(amount, n - 1);
      ChainStep(ApplyAll(db, who, ChainOrders(amount, n - 1)).db, who, amount, db.accounts[who], n - 1);
    }
  }

  lemma {:induction false} NothingContributed(ledger: seq<Entry>, f: iset<Bucket>, m: Measure)
    requires forall i | 0 <= i < |ledger| :: Contribution(ledger[i]).At(m) == 0
    ensures LedgerSum(ledger, f, m) == 0
  {
    if |ledger| > 0 {
      NothingContributed(ledger[..|ledger| - 1], f, m);
    }
  }

  lemma ValidAlone(db: Tables, who: Account, orders: seq<Order>)
    requires Validated(orders) && FreshOrders(db, orders)
    ensures ValidRun(db, [Request(who, orders)])
  {
    var e := Request(who, orders);
    ValidatedIsAdmissible(Open(db, who), who, orders);
    assert ValidEvent(db, e) && Run(db, []) == db && [] + [e] == [e];
    RunNext(db, [], e);
  }

  lemma ChainIsValid(db: Tables, who: Account, amount: int, n: nat)
    requires db.registry == map[] && db.outbox == [] && amount > 0
    ensures ValidRun(db, [Request(who, ChainOrders(amount, n))])
  {
    var orders := ChainOrders(amount, n);
    assert Validated(orders) && FreshOrders(db, orders);
    ValidAlone(db, who, orders);
  }

  lemma NothingReported(db: Tables, who: Account)
    requires Balanced(db) && forall i | 0 <= i < |db.ledger| ::
               Contribution(db.ledger[i]).At(TotalBet) == 0 == Contribution(db.ledger[i]).At(TotalWin)
    ensures Net(db, who) == 0
  {
    NothingContributed(db.ledger, BucketsOf(who), TotalBet);
    NothingContributed(db.ledger, BucketsOf(who), TotalWin);
    RollupPlusUndrained(db, BucketsOf(who), TotalBet);
    RollupPlusUndrained(db, BucketsOf(who), TotalWin);
  }

  lemma ChainReportsNothing(db: Tables, who: Account, amount: int, opening: int, n: nat)
    requires Balanced(db) && ChainSoFar(db, who, amount, opening, n) && n > 1
    ensures Net(db, who) == 0
  {
    forall i | 0 <= i < |db.ledger|
      ensures Contribution(db.ledger[i]).At(TotalBet) == 0 == Contribution(db.ledger[i]).At(TotalWin)
    {
      assert db.ledger[i] == ChainRow(who, amount, i, i + 1 < n);
    }
    NothingReported(db, who);
  }

  lemma ServeOpened(db: Tables, who: Account, orders: seq<Order>)
    requires who in db.accounts && ApplyAll(db, who, orders).Done?
    ensures Run(db, [Request(who, orders)]) == ApplyAll(db, who, orders).db
  {
    var e := Request(who, orders);
    assert [e][..0] == [] && Run(db, []) == db && Open(db, who) == db;
  }

  lemma SeededRunIsGood(db: Tables, events: seq<Event>)
    requires db == Tables(db.accounts, map[], [], map[], [], map[])
    requires (forall a | a in db.accounts :: db.accounts[a] >= 0) && ValidRun(db, events)
    ensures Good(Run(db, events))
  {
    SeededIsGood(db);
    RunKeepsGood(db, events);
  }

  /** So the general form fails: after a bet and any even number of rollbacks, each of the one before it,
      the bet has been paid for again, but it is not reported. */
  lemma RevivedBetIsUnreported(db: Tables, who: Account, amount: int, n: nat)
    requires db == Tables(db.accounts, map[], [], map[], [], map[]) && who in db.accounts && 0 < amount <= db.accounts[who]
    requires (forall a | a in db.accounts :: db.accounts[a] >= 0) && n > 1
    ensures var run := [Request(who, ChainOrders(amount, n))];
      && ValidRun(db, run) && Net(Run(db, run), who) == 0
      && Balance(Run(db, run), who) == Balance(db, who) - if n % 2 == 1 then amount else 0
  {
    var run := [Request(who, ChainOrders(amount, n))];
    ChainIsServed(db, who, amount, n);
    ServeOpened(db, who, ChainOrders(amount, n));
    ChainIsValid(db, who, amount, n);
    assert Balanced(Run(db, run)) by {
      SeededRunIsGood(db, run);
    }
    ChainReportsNothing(Run(db, run), who, amount, db.accounts[who], n);
  }

  /** One account bets, another one rolls the bet back. */
  function ForeignRollback(a: Account, b: Account, amount: int): seq<Event> {
    [Request(a, [ChainOrder(amount, 0)]), Request(b, [ChainOrder(amount, 1)])]
  }

  lemma ServeOne(db: Tables, who: Account, o: Order)
    ensures Serve(db, who, [o]).Done? <==> Apply(Open(db, who), who, o).Done?
    ensures Serve(db, who, [o]).Done? ==> Serve(db, who, [o]).db == Apply(Open(db, who), who, o).db
  {
    assert [o][..0] == [] && [o][..1] == [o];
    NextApply(Open(db, who), who, [o], 0, Open(db, who), []);
  }

  lemma ValidOne(db: Tables, who: Account, o: Order)
    requires Positive(o.action) && Fresh(db, o.stamp)
    ensures ValidEvent(db, Request(who, [o]))
  {
    ValidatedIsAdmissible(Open(db, who), who, [o]);
  }

  lemma FirstBetIsGood(db: Tables, a: Account, amount: int)
    requires db == Tables(db.accounts, map[], [], map[], [], map[]) && a in db.accounts && 0 < amount <= db.accounts[a]
    requires forall c | c in db.accounts :: db.accounts[c] >= 0
    ensures var o := ChainOrder(amount, 0);
      Good(db) && Fresh(db, o.stamp) && Apply(db, a, o).Done? && Good(Apply(db, a, o).db)
    ensures Fresh(Apply(db, a, ChainOrder(amount, 0)).db, ChainOrder(amount, 1).stamp)
  {
    var o := ChainOrder(amount, 0);
    SeededIsGood(db);
    ChainStep(db, a, amount, db.accounts[a], 0);
    ApplyKeepsGood(db, a, o);
    StaysFresh(db, a, o, ChainOrder(amount, 1).stamp);
  }

  lemma FirstBetKeepsGap(db: Tables, a: Account, amount: int, c: Account)
    requires Good(db) && Claimable(db, Bet(1, amount), ChainOrder(amount, 0).stamp) && FreshOut(db, ChainOrder(amount, 0).stamp)
    requires Apply(db, a, ChainOrder(amount, 0)).Done?
    ensures Gap(Apply(db, a, ChainOrder(amount, 0)).db, c) == Gap(db, c)
  {
    GapOfOneAction(db, a, Bet(1, amount), ChainOrder(amount, 0).stamp, c);
  }

  lemma OpenKeepsGap(db: Tables, who: Account, c: Account)
    ensures Gap(Open(db, who), c) == Gap(db, c)
  {
  }

  lemma ReversalMovesGaps(mid: Tables, a: Account, b: Account, amount: int, opening: int, c: Account)
    requires Good(mid) && Fresh(mid, ChainOrder(amount, 1).stamp) && ChainSoFar(mid, a, amount, opening, 1)
    requires 0 < amount <= opening && a != b
    ensures var end := Serve(mid, b, [ChainOrder(amount, 1)]);
      end.Done? && Gap(end.db, c) == Gap(mid, c) + if c == b then amount else if c == a then -amount else 0
  {
    var start, o := Open(mid, b), ChainOrder(amount, 1);
    OpenKeepsFresh(mid, b, []);
    OpenKeepsGap(mid, b, c);
    ServeOne(mid, b, o);
    ChainStatus(mid, a, amount, opening, 1);
    ChainTarget(mid, a, amount, opening, 1);
    assert StatusOf(start, o.action) == StatusOf(mid, o.action) && DeltaOf(start, o.action) == DeltaOf(mid, o.action);
    assert Target(start, o.action) == Some(ChainRow(a, amount, 0, false));
    GapOfOneAction(start, b, o.action, o.stamp, c);
  }

  /** And a run that fails in the other way: an account that rolls back another one's bet is paid for it
      without a report, and the other one's report forgets a bet it did pay for. */
  lemma ForeignRollbackMovesGaps(db: Tables, a: Account, b: Account, amount: int)
    requires db == Tables(db.accounts, map[], [], map[], [], map[]) && a in db.accounts && 0 < amount <= db.accounts[a]
    requires (forall c | c in db.accounts :: db.accounts[c] >= 0) && a != b
    ensures var run := ForeignRollback(a, b, amount);
      ValidRun(db, run) && Gap(Run(db, run), b) == Gap(db, b) + amount && Gap(Run(db, run), a) == Gap(db, a) - amount
  {
    var o := ChainOrder(amount, 0);
    var first, second := Request(a, [o]), Request(b, [ChainOrder(amount, 1)]);
    var mid := Apply(db, a, o).db;
    FirstBetIsGood(db, a, amount);
    ServeOne(db, a, o);
    assert [first][..0] == [] && Run(db, []) == db && Open(db, a) == db && [first] + [second] == ForeignRollback(a, b, amount);
    assert Run(db, [first]) == mid;
    ValidOne(db, a, o);
    ValidOne(mid, b, ChainOrder(amount, 1));
    RunNext(db, [first], second);
    ChainStep(db, a, amount, db.accounts[a], 0);
    FirstBetKeepsGap(db, a, amount, a);
    FirstBetKeepsGap(db, a, amount, b);
    ReversalMovesGaps(mid, a, b, amount, db.accounts[a], a);
    ReversalMovesGaps(mid, a, b, amount, db.accounts[a], b);
  }

  /** The three actions of a chain, the last one delivered first. */
  function LateOrders(amount: int): seq<Order> {
    [ChainOrder(amount, 2), ChainOrder(amount, 0), ChainOrder(amount, 1)]
  }

  /** The rollback of the rollback came before there was one: a tombstone. */
  ghost predicate TombstoneOnly(db: Tables, who: Account, opening: int) {
    && |db.ledger| == 1 && db.ledger[0].id == 3 && (forall id | id in db.registry :: id == 3)
    && (forall id | id in db.intents :: id == 2) && who in db.accounts && db.accounts[who] == opening
  }

  /** Then the bet. */
  ghost predicate TombstoneAndBet(db: Tables, who: Account, amount: int, opening: int) {
    && |db.ledger| == 2 && db.ledger[0].id == 3 && db.ledger[1] == ChainRow(who, amount, 0, false)
    && (forall id | id in db.registry :: id == 3 || id == 1) && (forall id | id in db.intents :: id == 2)
    && who in db.accounts && db.accounts[who] == opening - amount
  }

  lemma LateFirst(db: Tables, who: Account, amount: int)
    requires db == Tables(db.accounts, map[], [], map[], [], map[]) && who in db.accounts && 0 < amount <= db.accounts[who]
    ensures var next := Apply(db, who, ChainOrder(amount, 2)); next.Done? && TombstoneOnly(next.db, who, db.accounts[who])
  {
    assert StatusOf(db, Rollback(3, 2)) == NoopTombstone;
  }

  lemma LateSecond(db: Tables, who: Account, amount: int, opening: int)
    requires TombstoneOnly(db, who, opening) && 0 < amount <= opening
    ensures var next := Apply(db, who, ChainOrder(amount, 0)); next.Done? && TombstoneAndBet(next.db, who, amount, opening)
  {
    assert StatusOf(db, Bet(1, amount)) == Applied;
  }

  // The rollback with the tombstone applies all the same: only bets and wins look for one.
  lemma LateThird(db: Tables, who: Account, amount: int, opening: int)
    requires TombstoneAndBet(db, who, amount, opening) && 0 < amount <= opening
    ensures var next := Apply(db, who, ChainOrder(amount, 1)); next.Done? && Balance(next.db, who) == opening
  {
    assert UniqueIds(db.ledger);
    FindAt(db.ledger, 1);
    assert StatusOf(db, Rollback(2, 1)) == Applied && DeltaOf(db, Rollback(2, 1)) == amount;
  }

  lemma ApplyThree(db: Tables, who: Account, orders: seq<Order>, one: Tables, two: Tables, three: Tables)
    requires |orders| == 3 && Apply(db, who, orders[0]).Done? && Apply(db, who, orders[0]).db == one
    requires Apply(one, who, orders[1]).Done? && Apply(one, who, orders[1]).db == two
    requires Apply(two, who, orders[2]).Done? && Apply(two, who, orders[2]).db == three
    ensures ApplyAll(db, who, orders).Done? && ApplyAll(db, who, orders).db == three
  {
    assert orders[..0] == [] && orders[..3] == orders;
    NextApply(db, who, orders, 0, db, []);
    NextApply(db, who, orders, 1, one, ApplyAll(db, who, orders[..1]).replies);
    NextApply(db, who, orders, 2, two, ApplyAll(db, who, orders[..2]).replies);
  }

  lemma LateIsServed(db: Tables, who: Account, amount: int, orders: seq<Order>)
    requires db == Tables(db.accounts, map[], [], map[], [], map[]) && who in db.accounts && 0 < amount <= db.accounts[who]
    requires orders == LateOrders(amount)
    ensures ApplyAll(db, who, orders).Done? && Balance(ApplyAll(db, who, orders).db, who) == Balance(db, who)
  {
    var opening := db.accounts[who];
    LateFirst(db, who, amount);
    var one := Apply(db, who, orders[0]).db;
    LateSecond(one, who, amount, opening);
    var two := Apply(one, who, orders[1]).db;
    LateThird(two, who, amount, opening);
    ApplyThree(db, who, orders, one, two, Apply(two, who, orders[2]).db);
  }

  lemma LateIsValid(db: Tables, who: Account, amount: int)
    requires db.registry == map[] && db.outbox == [] && amount > 0
    ensures ValidRun(db, [Request(who, LateOrders(amount))])
  {
    var orders := LateOrders(amount);
    assert Validated(orders) && FreshOrders(db, orders);
    ValidAlone(db, who, orders);
  }

  lemma DeliveredAlone(db: Tables, who: Account, orders: seq<Order>)
    requires who in db.accounts && ApplyAll(db, who, orders).Done?
    ensures Delivered(db, [Request(who, orders)]) == ItemsOf(who, orders)
  {
    var e := Request(who, orders);
    assert [e][..0] == [] && Run(db, []) == db && Open(db, who) == db && Delivered(db, []) == {};
  }

  lemma SameItems(who: Account, amount: int)
    ensures ItemsOf(who, ChainOrders(amount, 3)) == ItemsOf(who, LateOrders(amount))
  {
    var orders, late := ChainOrders(amount, 3), LateOrders(amount);
    assert orders == [ChainOrder(amount, 0), ChainOrder(amount, 1), ChainOrder(amount, 2)];
    forall o
      ensures o in orders <==> o in late
    {
    }
  }

  lemma ChainInOrder(db: Tables, who: Account, amount: int, n: nat, run: seq<Event>)
    requires db == Tables(db.accounts, map[], [], map[], [], map[]) && who in db.accounts && 0 < amount <= db.accounts[who]
    requires run == [Request(who, ChainOrders(amount, n))]
    ensures ValidRun(db, run) && Delivered(db, run) == ItemsOf(who, ChainOrders(amount, n))
    ensures Balance(Run(db, run), who) == Balance(db, who) - if n % 2 == 1 then amount else 0
  {
    ChainIsServed(db, who, amount, n);
    ServeOpened(db, who, ChainOrders(amount, n));
    ChainIsValid(db, who, amount, n);
    DeliveredAlone(db, who, ChainOrders(amount, n));
  }

  lemma ChainLastFirst(db: Tables, who: Account, amount: int, orders: seq<Order>, run: seq<Event>)
    requires db == Tables(db.accounts, map[], [], map[], [], map[]) && who in db.accounts && 0 < amount <= db.accounts[who]
    requires orders == LateOrders(amount) && run == [Request(who, orders)]
    ensures ValidRun(db, run) && Delivered(db, run) == ItemsOf(who, orders) && Balance(Run(db, run), who) == Balance(db, who)
  {
    LateIsServed(db, who, amount, orders);
    ServeOpened(db, who, orders);
    LateIsValid(db, who, amount);
    DeliveredAlone(db, who, orders);
  }

  /** Order independence needs that no rollback names a rollback: the same three actions of one account, once in
      order and once with the last one first, leave different balances. */
  lemma OrderMattersToChains(db: Tables, who: Account, amount: int, one: seq<Event>, other: seq<Event>)
    requires db == Tables(db.accounts, map[], [], map[], [], map[]) && who in db.accounts && 0 < amount <= db.accounts[who]
    requires one == [Request(who, ChainOrders(amount, 3))] && other == [Request(who, LateOrders(amount))]
    ensures ValidRun(db, one) && ValidRun(db, other) && Delivered(db, one) == Delivered(db, other)
    ensures Balance(Run(db, one), who) == Balance(db, who) - amount && Balance(Run(db, other), who) == Balance(db, who)
  {
    ChainInOrder(db, who, amount, 3, one);
    ChainLastFirst(db, who, amount, LateOrders(amount), other);
    SameItems(who, amount);
  }
}
