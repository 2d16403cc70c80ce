/** `src/processor.ts` over the database object, proved against `Serve`. */
module Processor {
  import opened Schema
  import opened Wallet
  import opened LedgerLaws
  import opened Reconciliation
  import opened Runs
  import opened History
  import opened Services
  import opened Store

  datatype Response = BalanceOnly(balance: int) | Transactions(transactions: seq<Reply>, balance: int)

  // What a response is made of: the account is open, and every action has its tx id.
  lemma ServedAnswers(db: Tables, who: Account, orders: seq<Order>)
    requires Serve(db, who, orders).Done?
    ensures var r := Serve(db, who, orders);
      && who in r.db.accounts && |r.replies| == |orders|
      && forall i | 0 <= i < |orders| ::
           orders[i].action.id in r.db.registry
           && r.replies[i] == Reply(orders[i].action.id, r.db.registry[orders[i].action.id].txId)
  {
    ApplyAllRemembers(Open(db, who), who, orders);
  }

  /** The tables right after the id of `a` was claimed. */
  ghost function AfterClaim(db: Tables, who: Account, a: Action, s: Stamp): Tables {
    db.(registry := db.registry[a.id := RegistryRow(s.txId, who, s.now)])
  }

  /** What the loop knows between two actions: `cur` is the state `Serve` is in, whose balance the
      real code still carries in a local variable, and `a` is the action just claimed. */
  ghost predicate Ready(cur: Tables, who: Account, a: Action, s: Stamp, balance: int) {
    && Placed(cur.registry, cur.ledger)
    && a.id !in cur.registry
    && (forall o | o in cur.intents :: cur.intents[o].rollback != a.id)
    && Absent(cur.outbox, s.firstOut) && Absent(cur.outbox, s.secondOut) && s.firstOut != s.secondOut
    && who in cur.accounts && balance == cur.accounts[who] >= 0
  }

  lemma LawfulIsReady(cur: Tables, who: Account, a: Action, s: Stamp)
    requires Lawful(cur) && a.id !in cur.registry && FreshOut(cur, s) && who in cur.accounts
    ensures Ready(cur, who, a, s, cur.accounts[who])
  {
    forall o | o in cur.intents
      ensures cur.intents[o].rollback != a.id
    {
      assert Written(cur.intents, cur.ledger, o);
    }
  }

  // The original is marked after the rollback row went in; its row is found all the same.
  lemma MarkAfterAppend(registry: map<ActionId, RegistryRow>, ledger: seq<Entry>, e: Entry, original: ActionId, at: Time)
    requires Placed(registry, ledger) && e.id !in registry && Find(ledger, original).Some?
    ensures RowsSet(ledger + [e], original, at, e.id) ==
      if Lookup(ledger, original).value.createdAt == at then Marked(ledger, Some(original), e.id) + [e] else ledger + [e]
  {
    FindNext(ledger, None, e, original);
    RowsSetIffTimeFits(ledger + [e], original, at, e.id);
  }

  method EnqueueAppliedOriginal(db: Database, out: nat, createdAt: Time, who: Account, kind: Kind, amount: int) returns (r: Check)
    modifies db`outbox
    ensures r.Pass? <==> Absent(old(db.outbox), out)
    ensures db.outbox == old(db.outbox)
      + if r.Pass? then [OutboxRow(out, Bucket(Minute(createdAt), who), AppliedColumns(kind, amount), Pending)] else []
  {
    r := db.EnqueueRtpDelta(out, createdAt, who,
                            Columns(if kind == BetKind then amount else 0, if kind == WinKind then amount else 0,
                                    if kind == BetKind then 1 else 0, 0, 0, 0));
  }

  method EnqueueRolledBackOriginal(db: Database, out: nat, createdAt: Time, who: Account, kind: Kind, amount: int)
    returns (r: Check)
    modifies db`outbox
    ensures r.Pass? <==> Absent(old(db.outbox), out)
    ensures db.outbox == old(db.outbox)
      + if r.Pass? then [OutboxRow(out, Bucket(Minute(createdAt), who), RolledBackColumns(kind, amount), Pending)] else []
  {
    r := db.EnqueueRtpDelta(out, createdAt, who,
                            Columns(0, 0, 0, 0, if kind == BetKind then amount else 0, if kind == WinKind then amount else 0));
  }

  method EnqueueRollbackCount(db: Database, out: nat, createdAt: Time, who: Account) returns (r: Check)
    modifies db`outbox
    ensures r.Pass? <==> Absent(old(db.outbox), out)
    ensures db.outbox == old(db.outbox)
      + if r.Pass? then [OutboxRow(out, Bucket(Minute(createdAt), who), ONE_ROLLBACK, Pending)] else []
  {
    r := db.EnqueueRtpDelta(out, createdAt, who, Columns(0, 0, 0, 1, 0, 0));
  }

  /** Enqueues nothing for a reversed rollback. */
  method EnqueueRemoveAppliedOriginal(db: Database, out: nat, original: Entry) returns (r: Check)
    modifies db`outbox
    ensures original.kind == RollbackKind ==> r.Pass? && db.outbox == old(db.outbox)
    ensures original.kind != RollbackKind ==> (r.Pass? <==> Absent(old(db.outbox), out))
    ensures original.kind != RollbackKind ==>
      var amount := if original.amount.Some? then original.amount.value else 0;
      var row := OutboxRow(out, BucketOf(original), RemovedColumns(original.kind, amount), Pending);
      db.outbox == old(db.outbox) + if r.Pass? then [row] else []
  {
    if original.kind == RollbackKind {
      return Pass;
    }
    var amount := if original.amount.Some? then original.amount.value else 0;
    r := db.EnqueueRtpDelta(out, original.createdAt, original.account,
                            Columns(if original.kind == BetKind then -amount else 0, if original.kind == WinKind then -amount else 0,
                                    if original.kind == BetKind then -1 else 0, 0,
                                    if original.kind == BetKind then amount else 0, if original.kind == WinKind then amount else 0));
  }

  method InsertRollbackAction(db: Database, who: Account, action: Action, s: Stamp, delta: int, status: Status) returns (r: Check)
    requires action.Rollback?
    modifies db`ledger
    ensures r.Pass? <==> action.id in db.registry
    ensures var e := Entry(action.id, s.txId, who, RollbackKind, None, Some(action.original), delta, status, None, s.now);
      db.ledger == old(db.ledger) + if r.Pass? then [e] else []
  {
    r := db.InsertAction(Entry(action.id, s.txId, who, RollbackKind, None, Some(action.original), delta, status, None, s.now));
  }

  /** The statements of a bet or win: its row, and the row its rollup gets. */
  method RecordOriginal(db: Database, who: Account, action: Action, s: Stamp, delta: int, isNoop: bool, ghost cur: Tables)
    returns (r: Check)
    requires !action.Rollback? && action.amount > 0 && Ready(cur, who, action, s, Balance(cur, who))
    requires isNoop == (action.id in cur.intents) && delta == DeltaOf(cur, action)
    requires db.Snapshot() == AfterClaim(cur, who, action, s).(accounts := db.accounts)
    modifies db`ledger, db`outbox
    ensures r.Pass? && db.Snapshot() == Play(cur, Judge(cur, who, action, s)).(accounts := old(db.accounts))
  {
    var kind := if action.Bet? then BetKind else WinKind;
    var status := if isNoop then NoopPrerolled else Applied;
    r := db.InsertAction(Entry(action.id, s.txId, who, kind, Some(action.amount), None, delta, status, None, s.now));
    if r.Violated? {
      return;
    }
    if isNoop {
      r := EnqueueRolledBackOriginal(db, s.firstOut, s.now, who, kind, action.amount);
    } else {
      r := EnqueueAppliedOriginal(db, s.firstOut, s.now, who, kind, action.amount);
    }
  }

  /** A claimed bet or win records exactly the effect `Judge` gives it, or the balance would go below
      zero; no constraint of the schema can stop it. The balance row itself is not written yet. */
  method ProcessBetOrWin(db: Database, who: Account, action: Action, s: Stamp, balance: int, ghost cur: Tables)
    returns (r: Result<int>)
    requires !action.Rollback? && action.amount > 0 && Ready(cur, who, action, s, balance)
    requires db.Snapshot() == AfterClaim(cur, who, action, s).(accounts := db.accounts)
    modifies db`ledger, db`outbox
    ensures r == var x := Judge(cur, who, action, s); if x.balance < 0 then Err(InsufficientFunds) else Ok(x.balance)
    ensures r.Ok? ==> db.Snapshot() == Play(cur, Judge(cur, who, action, s)).(accounts := old(db.accounts))
    ensures r.Err? ==> db.Snapshot() == old(db.Snapshot())
  {
    var isNoop := db.HasIntent(action.id);
    var delta := if isNoop then 0 else if action.Bet? then -action.amount else action.amount;
    var nextBalance := balance + delta;
    if nextBalance < 0 {
      return Err(InsufficientFunds);
    }
    var recorded := RecordOriginal(db, who, action, s, delta, isNoop, cur);
    return Returned(recorded, nextBalance);
  }

  /** A rollback of an original that has an intent leaves its row and nothing else. */
  method RecordRepeat(db: Database, who: Account, action: Action, s: Stamp, ghost cur: Tables) returns (r: Check)
    requires action.Rollback? && Ready(cur, who, action, s, Balance(cur, who)) && action.original in cur.intents
    requires db.Snapshot() == AfterClaim(cur, who, action, s).(accounts := db.accounts)
    modifies db`ledger
    ensures r.Pass? && db.Snapshot() == Play(cur, Judge(cur, who, action, s)).(accounts := old(db.accounts))
  {
    r := InsertRollbackAction(db, who, action, s, 0, NoopAlreadyRolledBack);
  }

  /** The row of a rollback and the intent of its original. */
  method RecordRollback(db: Database, who: Account, action: Action, s: Stamp, delta: int, status: Status) returns (r: Check)
    requires action.Rollback? && action.id in db.registry && action.original !in db.intents
    requires forall o | o in db.intents :: db.intents[o].rollback != action.id
    modifies db`ledger, db`intents
    ensures r.Pass? && db.intents == old(db.intents)[action.original := Intent(action.id, who)]
    ensures db.ledger == old(db.ledger)
      + [Entry(action.id, s.txId, who, RollbackKind, None, Some(action.original), delta, status, None, s.now)]
  {
    r := InsertRollbackAction(db, who, action, s, delta, status);
    if r.Violated? {
      return;
    }
    r := db.InsertIntent(action.original, action.id, who);
  }

  /** The statements of a rollback that reverses nothing: its row, the intent of its original, its count. */
  method RecordNoop(db: Database, who: Account, action: Action, s: Stamp, status: Status, ghost cur: Tables) returns (r: Check)
    requires action.Rollback? && Ready(cur, who, action, s, Balance(cur, who))
    requires status == StatusOf(cur, action) && (status == NoopTombstone || status == NoopOriginalNotApplied)
    requires db.Snapshot() == AfterClaim(cur, who, action, s).(accounts := db.accounts)
    modifies db`ledger, db`outbox, db`intents
    ensures r.Pass? && db.Snapshot() == Play(cur, Judge(cur, who, action, s)).(accounts := old(db.accounts))
  {
    r := RecordRollback(db, who, action, s, 0, status);
    if r.Violated? {
      return;
    }
    r := EnqueueRollbackCount(db, s.firstOut, s.now, who);
  }

  method EnqueueReversal(db: Database, who: Account, s: Stamp, original: Entry) returns (r: Check)
    requires Absent(db.outbox, s.firstOut) && Absent(db.outbox, s.secondOut) && s.firstOut != s.secondOut
    modifies db`outbox
    ensures r.Pass? && db.outbox == old(db.outbox) + RollbackPosts(original, who, s)
  {
    r := EnqueueRemoveAppliedOriginal(db, s.firstOut, original);
    if r.Violated? {
      return;
    }
    r := EnqueueRollbackCount(db, if original.kind == RollbackKind then s.firstOut else s.secondOut, s.now, who);
  }

  // The effect of a reversal, part by part, in the terms of the original as it was read.
  lemma ReversalAsSeen(service: Service, cur: Tables, who: Account, action: Action, s: Stamp)
    requires action.Rollback? && StatusOf(cur, action) == Applied
    ensures var e := Lookup(cur.ledger, action.original).value;
      var read, x := ReadRow(service, e), Seen(service, cur, Judge(cur, who, action, s));
      && x.entry == EntryOf(cur, who, action, s) && x.tombstone == Some(action.original)
      && x.posts == RollbackPosts(read, who, s) && x.balance == Balance(cur, who) - e.delta
      && x.mark == if read.createdAt == e.createdAt then Some(action.original) else None
  {
    ReadKeepsMinute(service, Lookup(cur.ledger, action.original).value.createdAt);
  }

  /** The statements of a rollback that reverses `original`, as `service` read it. */
  method RecordReversal(
      db: Database, service: Service, who: Account, action: Action, s: Stamp, original: Entry, delta: int, ghost cur: Tables)
    returns (r: Check)
    requires action.Rollback? && Ready(cur, who, action, s, Balance(cur, who)) && StatusOf(cur, action) == Applied
    requires original == ReadRow(service, Lookup(cur.ledger, action.original).value) && delta == -original.delta
    requires db.Snapshot() == AfterClaim(cur, who, action, s).(accounts := db.accounts)
    modifies db`ledger, db`outbox, db`intents
    ensures r.Pass? && db.Snapshot() == Play(cur, Seen(service, cur, Judge(cur, who, action, s))).(accounts := old(db.accounts))
  {
    ReversalAsSeen(service, cur, who, action, s);
    MarkAfterAppend(cur.registry, cur.ledger, EntryOf(cur, who, action, s), action.original, original.createdAt);
    r := RecordRollback(db, who, action, s, delta, Applied);
    if r.Violated? {
      return;
    }
    db.SetRolledBackBy(original.id, original.createdAt, action.id);
    r := EnqueueReversal(db, who, s, original);
  }

  /** A claimed rollback, likewise: exactly the effect `Judge` gives it, less the mark if the original's time
      was not read as it was written, or insufficient funds. */
  method ProcessRollback(db: Database, who: Account, action: Action, s: Stamp, balance: int, ghost cur: Tables)
    returns (r: Result<int>)
    requires action.Rollback? && Ready(cur, who, action, s, balance)
    requires db.Snapshot() == AfterClaim(cur, who, action, s).(accounts := db.accounts)
    modifies db`ledger, db`outbox, db`intents
    ensures r == var x := Judge(cur, who, action, s); if x.balance < 0 then Err(InsufficientFunds) else Ok(x.balance)
    ensures r.Ok? ==>
      db.Snapshot() == Play(cur, Seen(TypeScript, cur, Judge(cur, who, action, s))).(accounts := old(db.accounts))
    ensures r.Err? ==> db.Snapshot() == old(db.Snapshot())
  {
    var existingIntent := db.HasIntent(action.original);
    if existingIntent {
      var recorded := RecordRepeat(db, who, action, s, cur);
      return Returned(recorded, balance);
    }

    var found := db.FindActionForUpdate(action.original);
    if found.None? {
      var recorded := RecordNoop(db, who, action, s, NoopTombstone, cur);
      return Returned(recorded, balance);
    }

    var original := ReadRow(TypeScript, found.value);
    if original.status != Applied || original.delta == 0 {
      var recorded := RecordNoop(db, who, action, s, NoopOriginalNotApplied, cur);
      return Returned(recorded, balance);
    }

    var rollbackDelta := -original.delta;
    var nextBalance := balance + rollbackDelta;
    if nextBalance < 0 {
      return Err(InsufficientFunds);
    }
    var recorded := RecordReversal(db, TypeScript, who, action, s, original, rollbackDelta, cur);
    return Returned(recorded, nextBalance);
  }

  // `cur` is where `Serve` got to after `i` orders.
  ghost predicate InStep(start: Tables, who: Account, orders: seq<Order>, i: nat, cur: Tables, replies: seq<Reply>) {
    && i <= |orders|
    && ApplyAll(start, who, orders[..i]) == Done(cur, replies)
    && Good(cur)
    && who in cur.accounts && cur.accounts == start.accounts[who := cur.accounts[who]]
    && (forall j {:trigger Fresh(cur, orders[j].stamp)} | i <= j < |orders| :: Fresh(cur, orders[j].stamp))
    && (forall j, k {:trigger Apart(orders[j].stamp, orders[k].stamp)} | 0 <= j < k < |orders| ::
          Apart(orders[j].stamp, orders[k].stamp))
  }

  lemma FirstStep(db: Tables, who: Account, orders: seq<Order>)
    requires Good(db) && FreshOrders(db, orders)
    ensures InStep(Open(db, who), who, orders, 0, Open(db, who), [])
  {
    var start := Open(db, who);
    assert start.accounts == start.accounts[who := start.accounts[who]];
    OpenKeepsFresh(db, who, orders);
  }

  lemma RestStaysFresh(cur: Tables, who: Account, orders: seq<Order>, i: nat)
    requires i < |orders| && Apply(cur, who, orders[i]).Done?
    requires forall j | i <= j < |orders| :: Fresh(cur, orders[j].stamp)
    requires forall j, k | 0 <= j < k < |orders| :: Apart(orders[j].stamp, orders[k].stamp)
    ensures forall j | i < j < |orders| :: Fresh(Apply(cur, who, orders[i]).db, orders[j].stamp)
  {
    forall j | i < j < |orders|
      ensures Fresh(Apply(cur, who, orders[i]).db, orders[j].stamp)
    {
      StaysFresh(cur, who, orders[i], orders[j].stamp);
    }
  }

  lemma OthersKeepBalance(start: Tables, cur: Tables, who: Account, o: Order)
    requires who in cur.accounts && cur.accounts == start.accounts[who := cur.accounts[who]] && Apply(cur, who, o).Done?
    ensures var next := Apply(cur, who, o).db;
      who in next.accounts && next.accounts == start.accounts[who := next.accounts[who]]
  {
  }

  lemma NextStep(start: Tables, who: Account, orders: seq<Order>, i: nat, cur: Tables, replies: seq<Reply>)
    requires InStep(start, who, orders, i, cur, replies) && i < |orders|
    requires Positive(orders[i].action) || orders[i].action.id in cur.registry
    ensures Fresh(cur, orders[i].stamp)
    ensures match Apply(cur, who, orders[i])
      case Refused => ApplyAll(start, who, orders[..i + 1]).Refused?
      case Done(next, reply) => InStep(start, who, orders, i + 1, next, replies + reply)
  {
    NextApply(start, who, orders, i, cur, replies);
    if Apply(cur, who, orders[i]).Done? {
      ApplyKeepsGood(cur, who, orders[i]);
      OthersKeepBalance(start, cur, who, orders[i]);
      RestStaysFresh(cur, who, orders, i);
    }
  }

  /** Where the loop is after `i` orders, unless the request has been refused. */
  lemma {:induction false} Steps(db: Tables, who: Account, orders: seq<Order>, i: nat)
    requires Good(db) && FreshOrders(db, orders) && Validated(orders) && i <= |orders|
    ensures var now := ApplyAll(Open(db, who), who, orders[..i]);
      now.Done? ==> InStep(Open(db, who), who, orders, i, now.db, now.replies)
  {
    if i == 0 {
      FirstStep(db, who, orders);
    } else {
      assert orders[..i][..i - 1] == orders[..i - 1];
      Steps(db, who, orders, i - 1);
      var before := ApplyAll(Open(db, who), who, orders[..i - 1]);
      if before.Done? {
        NextStep(Open(db, who), who, orders, i - 1, before.db, before.replies);
      }
    }
  }

  lemma ReadyStep(cur: Tables, who: Account, o: Order)
    requires Good(cur) && Fresh(cur, o.stamp) && who in cur.accounts
    ensures o.action.id !in cur.registry ==> Ready(cur, who, o.action, o.stamp, cur.accounts[who])
  {
    if o.action.id !in cur.registry {
      LawfulIsReady(cur, who, o.action, o.stamp);
    }
  }

  // What the body of the loop needs to know.
  lemma LoopStep(db: Tables, who: Account, orders: seq<Order>, i: nat, cur: Tables, replies: seq<Reply>)
    requires Good(db) && FreshOrders(db, orders) && Validated(orders) && i < |orders|
    requires ApplyAll(Open(db, who), who, orders[..i]) == Done(cur, replies)
    ensures var o := orders[i];
      && who in cur.accounts && Positive(o.action)
      && (o.action.id !in cur.registry ==> Ready(cur, who, o.action, o.stamp, cur.accounts[who]))
      && (forall id | id in cur.registry :: cur.registry[id].txId != o.stamp.txId)
      && ApplyAll(Open(db, who), who, orders[..i + 1]) ==
           match Apply(cur, who, o)
           case Refused => Refused
           case Done(next, reply) => Done(next, replies + reply)
  {
    Steps(db, who, orders, i);
    NextStep(Open(db, who), who, orders, i, cur, replies);
    NextApply(Open(db, who), who, orders, i, cur, replies);
    ReadyStep(cur, who, orders[i]);
  }

  // The balance row is the only one the loop leaves for last.
  lemma OnlyOwnBalance(db: Tables, who: Account, orders: seq<Order>)
    requires Good(db) && FreshOrders(db, orders) && Validated(orders) && Serve(db, who, orders).Done?
    ensures var end := Serve(db, who, orders).db;
      who in end.accounts && 0 <= end.accounts[who] && end.accounts == Open(db, who).accounts[who := end.accounts[who]]
  {
    Steps(db, who, orders, |orders|);
    assert orders[..|orders|] == orders;
  }

  /** The body of the transaction: lock the account, loop over the actions, write the balance back. */
  method ProcessActions(db: Database, who: Account, orders: seq<Order>) returns (r: Result<Response>)
    requires Good(db.Snapshot()) && FreshOrders(db.Snapshot(), orders) && Validated(orders)
    requires Legible(TypeScript, db.ledger) && Clocked(TypeScript, orders)
    modifies db`accounts, db`registry, db`ledger, db`intents, db`outbox
    ensures match Serve(old(db.Snapshot()), who, orders)
      case Refused => r == Err(InsufficientFunds)
      case Done(end, replies) =>
        db.Snapshot() == end && who in db.accounts
        && r == Ok(if |orders| == 0 then BalanceOnly(db.accounts[who]) else Transactions(replies, db.accounts[who]))
  {
    db.InsertAccountIfAbsent(who);
    var balance := db.accounts[who];
    if |orders| == 0 {
      return Ok(BalanceOnly(balance));
    }

    ghost var start := db.Snapshot();
    ghost var cur := start;
    var transactions := [];
    for i := 0 to |orders|
      invariant ApplyAll(start, who, orders[..i]) == Done(cur, transactions)
      invariant db.Snapshot() == cur.(accounts := start.accounts)
      invariant who in cur.accounts && balance == cur.accounts[who] && Legible(TypeScript, cur.ledger)
    {
      var action, s := orders[i].action, orders[i].stamp;
      LoopStep(old(db.Snapshot()), who, orders, i, cur, transactions);
      var claim := db.ClaimAction(action.id, who, s.txId, s.now);
      match claim {
        case Err(error) => return Err(error);
        case Ok(Duplicate(txId)) => transactions := transactions + [Reply(action.id, txId)];
        case Ok(Claimed(row)) =>
          LegibleIsSeen(TypeScript, cur, Judge(cur, who, action, s));
          var next: Result<int>;
          if action.Rollback? {
            next := ProcessRollback(db, who, action, s, balance, cur);
          } else {
            next := ProcessBetOrWin(db, who, action, s, balance, cur);
          }
          if next.Err? {
            RefusedPrefix(start, who, orders, i + 1);
            return Err(next.error);
          }
          balance := next.value;
          transactions := transactions + [Reply(action.id, row.txId)];
          ApplyKeepsLegible(TypeScript, cur, who, orders[i]);
          cur := Play(cur, Judge(cur, who, action, s));
      }
    }
    assert orders[..|orders|] == orders;
    OnlyOwnBalance(old(db.Snapshot()), who, orders);
    var updated := db.UpdateBalance(who, balance);
    return Returned(updated, Transactions(transactions, balance));
  }

  /** A request ends in exactly the tables of `Serve` and answers with the balance it left and the tx id of each
      action in turn; or, iff one of its actions overdraws, it is refused for insufficient funds and leaves every
      table, claims and account row included, as it was. No key, UNIQUE, foreign key or CHECK of the schema is
      ever violated. */
  method ProcessAggregatorRequest(db: Database, who: Account, orders: seq<Order>) returns (r: Result<Response>)
    requires Good(db.Snapshot()) && FreshOrders(db.Snapshot(), orders) && Validated(orders)
    requires Legible(TypeScript, db.ledger) && Clocked(TypeScript, orders)
    modifies db
    ensures Good(db.Snapshot()) && Legible(TypeScript, db.ledger)
    ensures match Serve(old(db.Snapshot()), who, orders)
      case Refused => r == Err(InsufficientFunds) && db.Snapshot() == old(db.Snapshot())
      case Done(end, _) => r.Ok? && db.Snapshot() == end
    ensures r.Ok? ==> who in db.accounts && r.value.balance == db.accounts[who]
    ensures r.Ok? ==> (r.value.BalanceOnly? <==> |orders| == 0)
    ensures r.Ok? && |orders| > 0 ==> |r.value.transactions| == |orders|
    ensures r.Ok? ==> forall i | 0 <= i < |orders| ::
      orders[i].action.id in db.registry
      && r.value.transactions[i] == Reply(orders[i].action.id, db.registry[orders[i].action.id].txId)
    ensures r.Err? <==> exists n | 0 <= n < |orders| :: OverdrawsAt(old(db.Snapshot()), who, orders, n)
  {
    ValidatedIsAdmissible(Open(db.Snapshot(), who), who, orders);
    ServeKeepsGood(db.Snapshot(), who, orders);
    RefusedIffOverdrawn(db.Snapshot(), who, orders);
    if Serve(db.Snapshot(), who, orders).Done? {
      ApplyAllKeepsLegible(TypeScript, Open(db.Snapshot(), who), who, orders);
      ServedAnswers(db.Snapshot(), who, orders);
    }
    db.Begin();
    r := ProcessActions(db, who, orders);
    if r.Err? {
      db.Rollback();
    }
  }
}
