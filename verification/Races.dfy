/** What the account lock and disjoint ids are for: the same system without either of them reaches states
    that no serial run reaches. */
module Races {
  import opened Schema
  import opened Wallet
  import opened LedgerLaws
  import opened Runs
  import opened History
  import opened Slices
  import opened Services
  import opened Transactions
  import opened Concurrent
  import opened Paths

  /** A step of the system without its account locks. */
  ghost predicate UnlockedStep(sys: System, a: Move, next: System) {
    Feasible(sys, a) && (a.Lock? ==> NamesApart(sys, a.who, a.orders)) && next == Next(sys, a)
  }

  /** A step of the system in which different accounts may name the same id at the same time. */
  ghost predicate RacingStep(sys: System, a: Move, next: System) {
    Feasible(sys, a) && (a.Lock? ==> LockIsFree(sys, a.who)) && next == Next(sys, a)
  }

  /** The relation leaves out none of the steps that come after the lock. */
  ghost predicate Lenient(step: Stepping) {
    forall sys, a {:trigger Feasible(sys, a)} | Feasible(sys, a) && !a.Lock? :: step(sys, a, Next(sys, a))
  }

  /** An action that will be recorded, as things stand. */
  ghost predicate Recordable(db: Tables, who: Account, o: Order) {
    && who in db.accounts && o.action.id !in db.registry && Positive(o.action)
    && Judge(db, who, o.action, o.stamp).balance >= 0
    && Fresh(db, o.stamp) && AsRead(TypeScript, o.stamp.now) == o.stamp.now
    && Seen(TypeScript, db, Judge(db, who, o.action, o.stamp)) == Judge(db, who, o.action, o.stamp)
  }

  function Alone(db: Tables, who: Account, o: Order): Txn {
    Locked(TypeScript, db, who, [o])
  }

  function Judged(db: Tables, who: Account, o: Order): Txn {
    Alone(db, who, o).(verdict := Some(Record(Judge(db, who, o.action, o.stamp))))
  }

  /** The transaction after it has acted on its one action. */
  function Settled(db: Tables, who: Account, o: Order): Txn {
    var x := Judge(db, who, o.action, o.stamp);
    Txn(TypeScript, who, [o], 1, x.balance, [x], [Reply(o.action.id, o.stamp.txId)], None)
  }

  lemma DecidedIsJudged(db: Tables, who: Account, o: Order)
    requires Recordable(db, who, o)
    ensures Decided(db, Alone(db, who, o)) == Judged(db, who, o)
  {
    assert View(db, Alone(db, who, o)) == db;
  }

  lemma ActedIsSettled(db: Tables, who: Account, o: Order)
    ensures Acted(Judged(db, who, o)) == Settled(db, who, o)
  {
    var x := Judge(db, who, o.action, o.stamp);
    assert [] + [x] == [x] && [] + [Reply(o.action.id, o.stamp.txId)] == [Reply(o.action.id, o.stamp.txId)];
  }

  lemma SettledView(db: Tables, now: Tables, who: Account, o: Order)
    requires who in now.accounts
    ensures View(now, Settled(db, who, o)) == Play(now, Judge(db, who, o.action, o.stamp))
  {
    PlayAllNext(now, [], Judge(db, who, o.action, o.stamp));
    assert [] + [Judge(db, who, o.action, o.stamp)] == [Judge(db, who, o.action, o.stamp)];
  }

  function Pair(db: Tables, s: Txn, t: Txn): System {
    System({TypeScript}, db, map[0 := s, 1 := t], map[], [])
  }

  lemma Arrival(sys: System, who: Account, o: Order)
    requires Recordable(sys.committed, who, o) && sys.services == {TypeScript}
    requires forall u | u in sys.txns :: StampsApart([o], sys.txns[u].orders)
    ensures Arrives(sys, TypeScript, who, [o])
  {
  }

  lemma Takes(step: Stepping, from: System, sys: System, a: Move, next: System)
    requires Lenient(step) && Reaches(step, from, sys) && Feasible(sys, a) && !a.Lock? && next == Next(sys, a)
    ensures Reaches(step, from, next)
  {
    assert step(sys, a, Next(sys, a));
    Further(step, from, sys, a, next);
  }

  function First(db: Tables, s: Txn): System {
    System({TypeScript}, db, map[0 := s], map[], [])
  }

  /** Both requests can take their lock, the second one while the first one holds its own. */
  ghost predicate BothArrive(step: Stepping, db: Tables, a: Account, o: Order, b: Account, p: Order) {
    && Recordable(db, a, o) && Recordable(db, b, p) && Lenient(step)
    && step(Start({TypeScript}, db), Lock(0, TypeScript, a, [o]), First(db, Alone(db, a, o)))
    && step(First(db, Alone(db, a, o)), Lock(1, TypeScript, b, [p]), Pair(db, Alone(db, a, o), Alone(db, b, p)))
  }

  lemma LocksAreFeasible(db: Tables, a: Account, o: Order, b: Account, p: Order)
    requires Recordable(db, a, o) && Recordable(db, b, p) && Apart(p.stamp, o.stamp)
    ensures var first, second := Lock(0, TypeScript, a, [o]), Lock(1, TypeScript, b, [p]);
      var one := First(db, Alone(db, a, o));
      && Feasible(Start({TypeScript}, db), first) && Next(Start({TypeScript}, db), first) == one
      && Feasible(one, second) && Next(one, second) == Pair(db, Alone(db, a, o), Alone(db, b, p))
  {
    Arrival(Start({TypeScript}, db), a, o);
    assert StampsApart([p], [o]);
    Arrival(First(db, Alone(db, a, o)), b, p);
  }

  lemma BothLock(step: Stepping, db: Tables, a: Account, o: Order, b: Account, p: Order)
    requires BothArrive(step, db, a, o, b, p)
    ensures Reaches(step, Start({TypeScript}, db), Pair(db, Alone(db, a, o), Alone(db, b, p)))
  {
    var start, one := Start({TypeScript}, db), First(db, Alone(db, a, o));
    Stays(step, start);
    Further(step, start, start, Lock(0, TypeScript, a, [o]), one);
    Further(step, start, one, Lock(1, TypeScript, b, [p]), Pair(db, Alone(db, a, o), Alone(db, b, p)));
  }

  lemma BothDecide(step: Stepping, db: Tables, a: Account, o: Order, b: Account, p: Order)
    requires BothArrive(step, db, a, o, b, p)
    ensures Reaches(step, Start({TypeScript}, db), Pair(db, Judged(db, a, o), Judged(db, b, p)))
  {
    var start := Start({TypeScript}, db);
    var locked, half := Pair(db, Alone(db, a, o), Alone(db, b, p)), Pair(db, Judged(db, a, o), Alone(db, b, p));
    BothLock(step, db, a, o, b, p);
    DecidedIsJudged(db, a, o);
    DecidedIsJudged(db, b, p);
    assert locked.txns[0] == Alone(db, a, o) && locked.txns[0 := Judged(db, a, o)] == half.txns;
    Takes(step, start, locked, Decide(0), half);
    assert half.txns[1] == Alone(db, b, p);
    assert half.txns[1 := Judged(db, b, p)] == Pair(db, Judged(db, a, o), Judged(db, b, p)).txns;
    Takes(step, start, half, Decide(1), Pair(db, Judged(db, a, o), Judged(db, b, p)));
  }

  lemma BothAct(step: Stepping, db: Tables, a: Account, o: Order, b: Account, p: Order)
    requires BothArrive(step, db, a, o, b, p)
    ensures Reaches(step, Start({TypeScript}, db), Pair(db, Settled(db, a, o), Settled(db, b, p)))
  {
    var start := Start({TypeScript}, db);
    var judged, half := Pair(db, Judged(db, a, o), Judged(db, b, p)), Pair(db, Settled(db, a, o), Judged(db, b, p));
    BothDecide(step, db, a, o, b, p);
    ActedIsSettled(db, a, o);
    ActedIsSettled(db, b, p);
    assert judged.txns[0] == Judged(db, a, o) && judged.txns[0 := Settled(db, a, o)] == half.txns;
    Takes(step, start, judged, Act(0), half);
    assert half.txns[1] == Judged(db, b, p);
    assert half.txns[1 := Settled(db, b, p)] == Pair(db, Settled(db, a, o), Settled(db, b, p)).txns;
    Takes(step, start, half, Act(1), Pair(db, Settled(db, a, o), Settled(db, b, p)));
  }

  /** Both were judged before either was committed, and each commits what it judged. */
  function Overlapped(db: Tables, a: Account, o: Order, b: Account, p: Order): System {
    System({TypeScript}, Play(Play(db, Judge(db, a, o.action, o.stamp)), Judge(db, b, p.action, p.stamp)), map[], map[],
           [Request(a, [o]), Request(b, [p])])
  }

  function HalfCommitted(db: Tables, a: Account, o: Order, t: Txn): System {
    System({TypeScript}, Play(db, Judge(db, a, o.action, o.stamp)), map[1 := t], map[], [Request(a, [o])])
  }

  lemma FirstCommits(step: Stepping, db: Tables, a: Account, o: Order, b: Account, p: Order)
    requires BothArrive(step, db, a, o, b, p)
    ensures Reaches(step, Start({TypeScript}, db), HalfCommitted(db, a, o, Settled(db, b, p)))
  {
    var done, half := Pair(db, Settled(db, a, o), Settled(db, b, p)), HalfCommitted(db, a, o, Settled(db, b, p));
    BothAct(step, db, a, o, b, p);
    SettledView(db, db, a, o);
    assert done.txns[0] == Settled(db, a, o) && done.txns - {0} == half.txns;
    Takes(step, Start({TypeScript}, db), done, Commit(0), half);
  }

  lemma BothCommit(step: Stepping, db: Tables, a: Account, o: Order, b: Account, p: Order)
    requires BothArrive(step, db, a, o, b, p)
    ensures Reaches(step, Start({TypeScript}, db), Overlapped(db, a, o, b, p))
  {
    var half := HalfCommitted(db, a, o, Settled(db, b, p));
    FirstCommits(step, db, a, o, b, p);
    SettledView(db, half.committed, b, p);
    assert half.txns[1] == Settled(db, b, p) && half.txns - {1} == map[];
    assert [Request(a, [o])] + [Request(b, [p])] == [Request(a, [o]), Request(b, [p])];
    Takes(step, Start({TypeScript}, db), half, Commit(1), Overlapped(db, a, o, b, p));
  }

  /** A bet that nothing stands in the way of. */
  ghost predicate Payable(db: Tables, who: Account, o: Order) {
    && o.action.Bet? && o.action.id !in db.registry && o.action.id !in db.intents
    && who in db.accounts && 0 < o.action.amount <= db.accounts[who]
    && Fresh(db, o.stamp) && AsRead(TypeScript, o.stamp.now) == o.stamp.now
  }

  lemma BothBetsOneCharge(db: Tables, who: Account, a: Order, b: Order)
    requires who in db.accounts && a.action.Bet? && b.action.Bet?
    requires a.action.id !in db.intents && b.action.id !in db.intents
    ensures var end := Play(Play(db, Judge(db, who, a.action, a.stamp)), Judge(db, who, b.action, b.stamp));
      Balance(end, who) == Balance(db, who) - b.action.amount
      && DeltaSum(end.ledger, iset{who}) == DeltaSum(db.ledger, iset{who}) - a.action.amount - b.action.amount
  {
    var x, y := Judge(db, who, a.action, a.stamp), Judge(db, who, b.action, b.stamp);
    DeltaSumNext(db.ledger, x, iset{who});
    DeltaSumNext(Play(db, x).ledger, y, iset{who});
  }

  lemma PayableIsRecordable(db: Tables, who: Account, o: Order)
    requires Payable(db, who, o)
    ensures Recordable(db, who, o)
  {
    assert StatusOf(db, o.action) == Applied;
  }

  lemma BetsArrive(db: Tables, who: Account, a: Order, b: Order)
    requires Payable(db, who, a) && Payable(db, who, b) && Apart(b.stamp, a.stamp)
    ensures BothArrive(UnlockedStep, db, who, a, who, b)
  {
    PayableIsRecordable(db, who, a);
    PayableIsRecordable(db, who, b);
    LocksAreFeasible(db, who, a, who, b);
  }

  /** Without the lock any two bets of one account that it can each pay for can end in a state that
      `AlwaysReconciled` rules out: both are in the ledger, the account has paid for one of them. */
  lemma WithoutLockUpdatesAreLost(db: Tables, who: Account, a: Order, b: Order)
    requires Starts({TypeScript}, db, Start({TypeScript}, db)) && Apart(b.stamp, a.stamp) && a.action.id != b.action.id
    requires Payable(db, who, a) && Payable(db, who, b)
    ensures exists end :: (
      && Reaches(UnlockedStep, Start({TypeScript}, db), end)
      && Balance(end.committed, who)
           == Opening(db, who) + DeltaSum(end.committed.ledger, iset{who}) + a.action.amount)
  {
    BetsArrive(db, who, a, b);
    BothCommit(UnlockedStep, db, who, a, who, b);
    BothBetsOneCharge(db, who, a, b);
    assert Overlapped(db, who, a, who, b).committed
      == Play(Play(db, Judge(db, who, a.action, a.stamp)), Judge(db, who, b.action, b.stamp));
  }

  /** A rollback of a bet that is not there yet, by another account. */
  ghost predicate Foreruns(db: Tables, who: Account, o: Order, bet: ActionId) {
    && o.action.Rollback? && o.action.original == bet && o.action.id != bet && o.action.id !in db.registry
    && who in db.accounts && Fresh(db, o.stamp) && AsRead(TypeScript, o.stamp.now) == o.stamp.now
  }

  lemma BetMeetsTombstone(db: Tables, a: Account, bet: Order, b: Account, rollback: Order)
    requires Lawful(db) && Payable(db, a, bet) && Foreruns(db, b, rollback, bet.action.id)
    ensures var x, y := Judge(db, a, bet.action, bet.stamp), Judge(db, b, rollback.action, rollback.stamp);
      var end := Play(Play(db, x), y);
      StatusOf(db, rollback.action) == NoopTombstone && !TombstoneLaw(end.intents, end.ledger)
  {
    UnclaimedHasNoRow(db, bet.action.id);
    assert StatusOf(db, bet.action) == Applied && StatusOf(db, rollback.action) == NoopTombstone;
    var x, y := Judge(db, a, bet.action, bet.stamp), Judge(db, b, rollback.action, rollback.stamp);
    var end := Play(Play(db, x), y);
    assert end.ledger == db.ledger + [x.entry] + [y.entry];
    assert end.ledger[|db.ledger|] == x.entry && bet.action.id in end.intents;
  }

  lemma BetAndRollbackArrive(db: Tables, a: Account, bet: Order, b: Account, rollback: Order)
    requires Payable(db, a, bet) && Recordable(db, b, rollback) && a != b && Apart(rollback.stamp, bet.stamp)
    ensures BothArrive(RacingStep, db, a, bet, b, rollback)
  {
    PayableIsRecordable(db, a, bet);
    LocksAreFeasible(db, a, bet, b, rollback);
  }

  lemma ForerunnerIsRecordable(db: Tables, who: Account, o: Order, bet: ActionId)
    requires Foreruns(db, who, o, bet) && Solvent(db) && StatusOf(db, o.action) == NoopTombstone
    ensures Recordable(db, who, o)
  {
  }

  /** With ids shared between accounts a bet and another account's rollback of it, each decided before the
      other is committed, can end in a state that no serial run reaches: the bet is applied and stays so, and
      the tombstone that should have stopped it is there. */
  lemma SharedIdsBreakTombstones(db: Tables, a: Account, bet: Order, b: Account, rollback: Order)
    requires Starts({TypeScript}, db, Start({TypeScript}, db)) && a != b && Apart(rollback.stamp, bet.stamp)
    requires Payable(db, a, bet) && Foreruns(db, b, rollback, bet.action.id)
    ensures exists end :: (
      && Reaches(RacingStep, Start({TypeScript}, db), end)
      && !TombstoneLaw(end.committed.intents, end.committed.ledger) && !Good(end.committed))
  {
    BetMeetsTombstone(db, a, bet, b, rollback);
    ForerunnerIsRecordable(db, b, rollback, bet.action.id);
    BetAndRollbackArrive(db, a, bet, b, rollback);
    BothCommit(RacingStep, db, a, bet, b, rollback);
    var end := Overlapped(db, a, bet, b, rollback);
    assert !TombstoneLaw(end.committed.intents, end.committed.ledger);
  }
}
