/** `rust-service/src/processor.rs`: the same machine over wrapping `i64`, with amounts validated late. */
module RustProcessor {
  import opened Schema
  import opened Wallet
  import opened LedgerLaws
  import opened Runs
  import opened Services
  import opened Store
  import opened Processor

  const MAX_I64: int := 0x7fff_ffff_ffff_ffff

  /** The value of an `i64` after two's-complement wrap-around, as in a release build. */
  function Wrap(x: int): (r: int)
    ensures -0x8000_0000_0000_0000 <= r <= 0x7fff_ffff_ffff_ffff
    ensures (x - r) % 0x1_0000_0000_0000_0000 == 0
    ensures -MAX_I64 - 1 <= x <= MAX_I64 ==> r == x
  {
    (x + MAX_I64 + 1) % 0x1_0000_0000_0000_0000 - MAX_I64 - 1
  }

  function Add(x: int, y: int): int { Wrap(x + y) }

  function Neg(x: int): int { Wrap(-x) }

  /** The sign check on a wrapped sum accepts iff the exact sum is a representable balance. */
  lemma SignCheckIsExact(balance: int, delta: int)
    requires 0 <= balance <= MAX_I64 && -MAX_I64 <= delta <= MAX_I64
    ensures Add(balance, delta) >= 0 <==> 0 <= balance + delta <= MAX_I64
    ensures Add(balance, delta) >= 0 ==> Add(balance, delta) == balance + delta
  {
  }

  lemma NegationIsExact(delta: int)
    requires -MAX_I64 <= delta <= MAX_I64
    ensures Neg(delta) == -delta
  {
  }

  datatype Outcome64 = Done64(db: Tables, replies: seq<Reply>) | Failed(error: Error)

  /** One action with exact integers and an explicit range: the specification of the wrapping code. */
  function Apply64(db: Tables, who: Account, o: Order): Outcome64 {
    if o.action.id in db.registry then Done64(db, [Reply(o.action.id, db.registry[o.action.id].txId)])
    else if !Positive(o.action) then Failed(BadRequest)
    else
      var x := Judge(db, who, o.action, o.stamp);
      if 0 <= x.balance <= MAX_I64 then Done64(Play(db, x), [Reply(o.action.id, o.stamp.txId)]) else Failed(InsufficientFunds)
  }

  function ApplyAll64(db: Tables, who: Account, orders: seq<Order>): Outcome64 {
    if |orders| == 0 then Done64(db, [])
    else
      match ApplyAll64(db, who, orders[..|orders| - 1])
      case Failed(e) => Failed(e)
      case Done64(mid, replies) =>
        match Apply64(mid, who, orders[|orders| - 1])
        case Failed(e) => Failed(e)
        case Done64(end, reply) => Done64(end, replies + reply)
  }

  function Serve64(db: Tables, who: Account, orders: seq<Order>): Outcome64 {
    ApplyAll64(Open(db, who), who, orders)
  }

  /** Amounts arrive as `i64`. */
  predicate Representable(orders: seq<Order>) {
    forall i | 0 <= i < |orders| && !orders[i].action.Rollback? :: -MAX_I64 - 1 <= orders[i].action.amount <= MAX_I64
  }

  predicate Negatable(e: Entry) {
    -MAX_I64 <= e.delta <= MAX_I64
  }

  /** Every stored balance and delta is a `bigint` whose negation is one too. */
  ghost predicate Bounded(db: Tables) {
    && (forall a | a in db.accounts :: 0 <= db.accounts[a] <= MAX_I64)
    && (forall i {:trigger Negatable(db.ledger[i])} | 0 <= i < |db.ledger| :: Negatable(db.ledger[i]))
  }

  /** Whatever the Rust service commits, the exact machine commits too, with the same tables and replies. */
  lemma {:induction false} RustRefinesExact(db: Tables, who: Account, orders: seq<Order>)
    requires ApplyAll64(db, who, orders).Done64?
    ensures ApplyAll(db, who, orders) == Done(ApplyAll64(db, who, orders).db, ApplyAll64(db, who, orders).replies)
  {
    if |orders| > 0 {
      RustRefinesExact(db, who, orders[..|orders| - 1]);
    }
  }

  /** No prefix of the request takes the account above what an `i64` holds. */
  ghost predicate NeverAboveMax(db: Tables, who: Account, orders: seq<Order>) {
    && (|orders| > 0 ==> NeverAboveMax(db, who, orders[..|orders| - 1]))
    && (ApplyAll(db, who, orders).Done? ==> Balance(ApplyAll(db, who, orders).db, who) <= MAX_I64)
  }

  /** On validated requests the two services differ only where an exact balance would leave the `i64`
      range; there the Rust service answers that funds are insufficient. */
  lemma {:induction false} RustDiffersOnlyAboveMax(db: Tables, who: Account, orders: seq<Order>)
    requires Admissible(db, who, orders) && Balance(db, who) <= MAX_I64
    ensures ApplyAll64(db, who, orders) ==
      if ApplyAll(db, who, orders).Done? && NeverAboveMax(db, who, orders)
      then Done64(ApplyAll(db, who, orders).db, ApplyAll(db, who, orders).replies)
      else Failed(InsufficientFunds)
  {
    if |orders| > 0 {
      RustDiffersOnlyAboveMax(db, who, orders[..|orders| - 1]);
    }
  }

  method ProcessBetOrWin64(db: Database, who: Account, action: Action, s: Stamp, balance: int, ghost cur: Tables)
    returns (r: Result<int>)
    requires !action.Rollback? && -MAX_I64 - 1 <= action.amount <= MAX_I64
    requires Ready(cur, who, action, s, balance) && balance <= MAX_I64
    requires db.Snapshot() == AfterClaim(cur, who, action, s).(accounts := db.accounts)
    modifies db`ledger, db`outbox
    ensures action.amount <= 0 ==> r == Err(BadRequest)
    ensures action.amount > 0 ==>
      r == var x := Judge(cur, who, action, s); if 0 <= x.balance <= MAX_I64 then Ok(x.balance) else Err(InsufficientFunds)
    ensures r.Ok? ==> db.Snapshot() == Play(cur, Judge(cur, who, action, s)).(accounts := old(db.accounts))
    ensures r.Err? ==> db.Snapshot() == old(db.Snapshot())
  {
    if action.amount <= 0 {
      return Err(BadRequest);
    }
    var isNoop := db.HasIntent(action.id);
    var delta := if isNoop then 0 else if action.Bet? then Neg(action.amount) else action.amount;
    var nextBalance := Add(balance, delta);
    SignCheckIsExact(balance, delta);
    if nextBalance < 0 {
      return Err(InsufficientFunds);
    }
    var recorded := RecordOriginal(db, who, action, s, delta, isNoop, cur);
    return Returned(recorded, nextBalance);
  }

  /** The end of `process_rollback`, where the original is reversed. */
  method Reverse64(db: Database, who: Account, action: Action, s: Stamp, original: Entry, balance: int, ghost cur: Tables)
    returns (r: Result<int>)
    requires action.Rollback? && Ready(cur, who, action, s, balance) && StatusOf(cur, action) == Applied
    requires Lookup(cur.ledger, action.original) == Some(original) && Negatable(original) && balance <= MAX_I64
    requires db.Snapshot() == AfterClaim(cur, who, action, s).(accounts := db.accounts)
    modifies db`ledger, db`outbox, db`intents
    ensures r == var x := Judge(cur, who, action, s); if 0 <= x.balance <= MAX_I64 then Ok(x.balance) else Err(InsufficientFunds)
    ensures r.Ok? ==> db.Snapshot() == Play(cur, Judge(cur, who, action, s)).(accounts := old(db.accounts))
    ensures r.Err? ==> db.Snapshot() == old(db.Snapshot())
  {
    var rollbackDelta := Neg(original.delta);
    var nextBalance := Add(balance, rollbackDelta);
    NegationIsExact(original.delta);
    SignCheckIsExact(balance, rollbackDelta);
    if nextBalance < 0 {
      return Err(InsufficientFunds);
    }
    var recorded := RecordReversal(db, Rust, who, action, s, original, rollbackDelta, cur);
    return Returned(recorded, nextBalance);
  }

  method ProcessRollback64(db: Database, who: Account, action: Action, s: Stamp, balance: int, ghost cur: Tables)
    returns (r: Result<int>)
    requires action.Rollback? && Ready(cur, who, action, s, balance) && Bounded(cur)
    requires db.Snapshot() == AfterClaim(cur, who, action, s).(accounts := db.accounts)
    modifies db`ledger, db`outbox, db`intents
    ensures r == var x := Judge(cur, who, action, s); if 0 <= x.balance <= MAX_I64 then Ok(x.balance) else Err(InsufficientFunds)
    ensures r.Ok? ==> db.Snapshot() == Play(cur, Judge(cur, who, action, s)).(accounts := old(db.accounts))
    ensures r.Err? ==> db.Snapshot() == old(db.Snapshot())
  {
    var existingIntent := db.HasIntent(action.original);
    if existingIntent {
      var recorded := RecordRepeat(db, who, action, s, cur);
      return Returned(recorded, balance);
    }

    var original := db.FindActionForUpdate(action.original);
    if original.None? {
      var recorded := RecordNoop(db, who, action, s, NoopTombstone, cur);
      return Returned(recorded, balance);
    }

    if original.value.status != Applied || original.value.delta == 0 {
      var recorded := RecordNoop(db, who, action, s, NoopOriginalNotApplied, cur);
      return Returned(recorded, balance);
    }

    assert Negatable(cur.ledger[Find(cur.ledger, action.original).value]);
    r := Reverse64(db, who, action, s, original.value, balance, cur);
  }

  /** The body of the loop: claim the action, dispatch on it, and answer with its tx id. */
  method ProcessAction64(db: Database, who: Account, o: Order, balance: int, ghost cur: Tables)
    returns (r: Result<(int, Reply)>)
    requires !o.action.Rollback? ==> -MAX_I64 - 1 <= o.action.amount <= MAX_I64
    requires o.action.id !in cur.registry ==> Ready(cur, who, o.action, o.stamp, balance)
    requires (forall id | id in cur.registry :: cur.registry[id].txId != o.stamp.txId) && balance == Balance(cur, who)
    requires Bounded(cur) && db.Snapshot() == cur.(accounts := db.accounts)
    modifies db`registry, db`ledger, db`outbox, db`intents
    ensures match Apply64(cur, who, o)
      case Failed(e) => r == Err(e)
      case Done64(next, reply) =>
        r == Ok((Balance(next, who), reply[0])) && |reply| == 1 && db.Snapshot() == next.(accounts := old(db.accounts))
    ensures r == Err(BadRequest) <==> o.action.id !in cur.registry && !o.action.Rollback? && o.action.amount <= 0
  {
    var action, s := o.action, o.stamp;
    var claim := db.ClaimAction(action.id, who, s.txId, s.now);
    match claim
    case Err(error) => return Err(error);
    case Ok(Duplicate(txId)) => return Ok((balance, Reply(action.id, txId)));
    case Ok(Claimed(row)) =>
      var next: Result<int>;
      if action.Rollback? {
        next := ProcessRollback64(db, who, action, s, balance, cur);
      } else {
        next := ProcessBetOrWin64(db, who, action, s, balance, cur);
      }
      match next
      case Err(error) => return Err(error);
      case Ok(nextBalance) => return Ok((nextBalance, Reply(action.id, row.txId)));
  }

  ghost predicate InStep64(start: Tables, who: Account, orders: seq<Order>, i: nat, cur: Tables, replies: seq<Reply>) {
    && InStep(start, who, orders, i, cur, replies)
    && ApplyAll64(start, who, orders[..i]) == Done64(cur, replies)
    && Bounded(cur)
  }

  lemma NextStep64(start: Tables, who: Account, orders: seq<Order>, i: nat, cur: Tables, replies: seq<Reply>)
    requires InStep64(start, who, orders, i, cur, replies) && i < |orders| && Representable(orders)
    ensures Fresh(cur, orders[i].stamp)
    ensures match Apply64(cur, who, orders[i])
      case Failed(e) => ApplyAll64(start, who, orders[..i + 1]) == Failed(e)
      case Done64(next, reply) => InStep64(start, who, orders, i + 1, next, replies + reply)
  {
    NextApply64(start, who, orders, i, cur, replies);
    if Apply64(cur, who, orders[i]).Done64? {
      NextStep(start, who, orders, i, cur, replies);
      StaysBounded(cur, who, orders[i]);
    }
  }

  lemma StaysBounded(cur: Tables, who: Account, o: Order)
    requires UniqueIds(cur.ledger) && Bounded(cur) && Apply64(cur, who, o).Done64?
    requires !o.action.Rollback? ==> o.action.amount <= MAX_I64
    ensures Bounded(Apply64(cur, who, o).db)
  {
    if o.action.id !in cur.registry {
      var x := Judge(cur, who, o.action, o.stamp);
      MarkedRows(cur.ledger, x.mark, o.action.id, x.entry);
    }
  }

  lemma {:induction false} FailedPrefix(start: Tables, who: Account, orders: seq<Order>, i: nat)
    requires i <= |orders| && ApplyAll64(start, who, orders[..i]).Failed?
    ensures ApplyAll64(start, who, orders) == ApplyAll64(start, who, orders[..i])
  {
    if i == |orders| {
      assert orders[..i] == orders;
    } else {
      var n := |orders| - 1;
      assert orders[..n][..i] == orders[..i];
      FailedPrefix(start, who, orders[..n], i);
    }
  }

  /** Action `n` is new when its turn comes, and a bet or win without a positive amount. */
  ghost predicate BadAt(db: Tables, who: Account, orders: seq<Order>, n: nat)
    requires n < |orders|
  {
    var before, a := Serve64(db, who, orders[..n]), orders[n].action;
    before.Done64? && a.id !in before.db.registry && !a.Rollback? && a.amount <= 0
  }

  /** Action `n` is new and not of that kind, and would take the exact balance out of the range of an `i64`. */
  ghost predicate ShortAt(db: Tables, who: Account, orders: seq<Order>, n: nat)
    requires n < |orders|
  {
    var before, a := Serve64(db, who, orders[..n]), orders[n].action;
    before.Done64? && a.id !in before.db.registry && (a.Rollback? || a.amount > 0)
    && !(0 <= Balance(before.db, who) + DeltaOf(before.db, a) <= 0x7fff_ffff_ffff_ffff)
  }

  // The first action that fails, and the failure of the whole request.
  lemma {:induction false} FirstFailure(db: Tables, who: Account, orders: seq<Order>) returns (n: nat)
    requires Serve64(db, who, orders).Failed?
    ensures n < |orders| && Serve64(db, who, orders[..n]).Done64?
    ensures Serve64(db, who, orders) == Apply64(Serve64(db, who, orders[..n]).db, who, orders[n])
  {
    var front := orders[..|orders| - 1];
    if Serve64(db, who, front).Failed? {
      n := FirstFailure(db, who, front);
      assert front[..n] == orders[..n];
    } else {
      n := |orders| - 1;
    }
  }

  lemma FailsAt(db: Tables, who: Account, orders: seq<Order>, n: nat)
    requires n < |orders| && (BadAt(db, who, orders, n) || ShortAt(db, who, orders, n))
    ensures Serve64(db, who, orders) == Failed(if BadAt(db, who, orders, n) then BadRequest else InsufficientFunds)
  {
    var before := Serve64(db, who, orders[..n]);
    NextApply64(Open(db, who), who, orders, n, before.db, before.replies);
    FailedPrefix(Open(db, who), who, orders, n + 1);
  }

  /** A request is bad iff, after a served prefix, comes a new bet or win without a positive amount; it lacks
      funds iff there comes any other new action that takes the exact balance out of range; it fails in no other
      way. */
  lemma WhyItFails(db: Tables, who: Account, orders: seq<Order>)
    ensures var r := Serve64(db, who, orders);
      && (r == Failed(BadRequest) <==> exists n | 0 <= n < |orders| :: BadAt(db, who, orders, n))
      && (r == Failed(InsufficientFunds) <==> exists n | 0 <= n < |orders| :: ShortAt(db, who, orders, n))
      && (r.Failed? ==> r.error == BadRequest || r.error == InsufficientFunds)
  {
    if Serve64(db, who, orders).Failed? {
      var n := FirstFailure(db, who, orders);
      assert BadAt(db, who, orders, n) || ShortAt(db, who, orders, n);
    }
    forall n | 0 <= n < |orders| && (BadAt(db, who, orders, n) || ShortAt(db, who, orders, n))
      ensures Serve64(db, who, orders) == Failed(if BadAt(db, who, orders, n) then BadRequest else InsufficientFunds)
    {
      FailsAt(db, who, orders, n);
    }
  }

  /** Where the loop is after `i` orders, unless it has failed. */
  lemma {:induction false} Steps64(db: Tables, who: Account, orders: seq<Order>, i: nat)
    requires Good(db) && Bounded(db) && FreshOrders(db, orders) && Representable(orders) && i <= |orders|
    ensures var now := ApplyAll64(Open(db, who), who, orders[..i]);
      now.Done64? ==> InStep64(Open(db, who), who, orders, i, now.db, now.replies)
  {
    if i == 0 {
      FirstStep(db, who, orders);
    } else {
      assert orders[..i][..i - 1] == orders[..i - 1];
      Steps64(db, who, orders, i - 1);
      var before := ApplyAll64(Open(db, who), who, orders[..i - 1]);
      if before.Done64? {
        NextStep64(Open(db, who), who, orders, i - 1, before.db, before.replies);
      }
    }
  }

  lemma ServeKeepsBounded(db: Tables, who: Account, orders: seq<Order>)
    requires Good(db) && Bounded(db) && FreshOrders(db, orders) && Representable(orders)
    ensures Serve64(db, who, orders).Done64? ==> Good(Serve64(db, who, orders).db) && Bounded(Serve64(db, who, orders).db)
  {
    Steps64(db, who, orders, |orders|);
    assert orders[..|orders|] == orders;
  }

  // What the body of the loop needs to know.
  lemma LoopStep64(db: Tables, who: Account, orders: seq<Order>, i: nat, cur: Tables, replies: seq<Reply>)
    requires Good(db) && Bounded(db) && FreshOrders(db, orders) && Representable(orders) && i < |orders|
    requires ApplyAll64(Open(db, who), who, orders[..i]) == Done64(cur, replies)
    ensures var o := orders[i];
      && (o.action.id !in cur.registry ==> who in cur.accounts && Ready(cur, who, o.action, o.stamp, cur.accounts[who]))
      && (forall id | id in cur.registry :: cur.registry[id].txId != o.stamp.txId)
      && Bounded(cur) && who in cur.accounts
      && (Apply64(cur, who, o).Done64? ==> who in Apply64(cur, who, o).db.accounts)
      && ApplyAll64(Open(db, who), who, orders[..i + 1]) ==
           match Apply64(cur, who, o)
           case Failed(e) => Failed(e)
           case Done64(next, reply) => Done64(next, replies + reply)
  {
    Steps64(db, who, orders, i);
    NextStep64(Open(db, who), who, orders, i, cur, replies);
    NextApply64(Open(db, who), who, orders, i, cur, replies);
    ReadyStep(cur, who, orders[i]);
  }

  lemma NextApply64(db: Tables, who: Account, orders: seq<Order>, i: nat, cur: Tables, replies: seq<Reply>)
    requires i < |orders| && ApplyAll64(db, who, orders[..i]) == Done64(cur, replies)
    ensures ApplyAll64(db, who, orders[..i + 1]) ==
      match Apply64(cur, who, orders[i])
      case Failed(e) => Failed(e)
      case Done64(next, reply) => Done64(next, replies + reply)
  {
    assert orders[..i + 1][..i] == orders[..i];
  }

  // The balance row is the only one the loop leaves for last.
  lemma OnlyOwnBalance64(db: Tables, who: Account, orders: seq<Order>)
    requires Good(db) && Bounded(db) && FreshOrders(db, orders) && Representable(orders)
    requires Serve64(db, who, orders).Done64?
    ensures var end := Serve64(db, who, orders).db;
      who in end.accounts && 0 <= end.accounts[who] && end.accounts == Open(db, who).accounts[who := end.accounts[who]]
  {
    Steps64(db, who, orders, |orders|);
    assert orders[..|orders|] == orders;
  }

  lemma ServedAnswers64(db: Tables, who: Account, orders: seq<Order>)
    requires Serve64(db, who, orders).Done64?
    ensures var r := Serve64(db, who, orders);
      && |r.replies| == |orders|
      && forall i | 0 <= i < |orders| ::
           orders[i].action.id in r.db.registry
           && r.replies[i] == Reply(orders[i].action.id, r.db.registry[orders[i].action.id].txId)
  {
    RustRefinesExact(Open(db, who), who, orders);
    ServedAnswers(db, who, orders);
  }

  method ProcessActions64(db: Database, who: Account, orders: seq<Order>) returns (r: Result<Response>)
    requires Good(db.Snapshot()) && Bounded(db.Snapshot())
    requires FreshOrders(db.Snapshot(), orders) && Representable(orders)
    modifies db`accounts, db`registry, db`ledger, db`intents, db`outbox
    ensures match Serve64(old(db.Snapshot()), who, orders)
      case Failed(e) => r == Err(e)
      case Done64(end, replies) =>
        db.Snapshot() == end && who in db.accounts
        && r == Ok(if |orders| == 0 then BalanceOnly(db.accounts[who]) else Transactions(replies, db.accounts[who]))
  {
    db.InsertAccountIfAbsent(who);
    var balance := db.accounts[who];
    ghost var start := db.Snapshot();
    ghost var cur := start;
    if |orders| == 0 {
      return Ok(BalanceOnly(balance));
    }

    var transactions := [];
    for i := 0 to |orders|
      invariant ApplyAll64(start, who, orders[..i]) == Done64(cur, transactions)
      invariant db.Snapshot() == cur.(accounts := start.accounts)
      invariant who in cur.accounts && balance == cur.accounts[who]
    {
      LoopStep64(old(db.Snapshot()), who, orders, i, cur, transactions);
      var next := ProcessAction64(db, who, orders[i], balance, cur);
      if next.Err? {
        FailedPrefix(start, who, orders, i + 1);
        return Err(next.error);
      }
      balance := next.value.0;
      transactions := transactions + [next.value.1];
      cur := Apply64(cur, who, orders[i]).db;
    }
    assert orders[..|orders|] == orders;
    OnlyOwnBalance64(old(db.Snapshot()), who, orders);
    var updated := db.UpdateBalance(who, balance);
    return Returned(updated, Transactions(transactions, balance));
  }

  /** No run of the Rust service persists a wrapped balance: it commits exactly what `Serve64`
      computes with exact integers, answers with the balance it left and the tx id of each action in turn, and
      every balance it leaves lies between zero and 2^63-1. `BadAt` and `ShortAt` say when it fails, and how. */
  method ProcessRequest64(db: Database, who: Account, orders: seq<Order>) returns (r: Result<Response>)
    requires Good(db.Snapshot()) && Bounded(db.Snapshot())
    requires FreshOrders(db.Snapshot(), orders) && Representable(orders)
    modifies db
    ensures Good(db.Snapshot()) && Bounded(db.Snapshot())
    ensures match Serve64(old(db.Snapshot()), who, orders)
      case Failed(e) => r == Err(e) && db.Snapshot() == old(db.Snapshot())
      case Done64(end, _) => r.Ok? && db.Snapshot() == end
    ensures r.Ok? ==> who in db.accounts && r.value.balance == db.accounts[who]
    ensures r.Ok? ==> (r.value.BalanceOnly? <==> |orders| == 0)
    ensures r.Ok? && |orders| > 0 ==> |r.value.transactions| == |orders|
    ensures r.Ok? ==> forall i | 0 <= i < |orders| ::
      orders[i].action.id in db.registry
      && r.value.transactions[i] == Reply(orders[i].action.id, db.registry[orders[i].action.id].txId)
    ensures r == Err(BadRequest) <==> exists n | 0 <= n < |orders| :: BadAt(old(db.Snapshot()), who, orders, n)
    ensures r == Err(InsufficientFunds) <==> exists n | 0 <= n < |orders| :: ShortAt(old(db.Snapshot()), who, orders, n)
    ensures r.Err? ==> r.error == BadRequest || r.error == InsufficientFunds
    ensures forall a | a in db.accounts :: 0 <= db.accounts[a] <= 0x7fff_ffff_ffff_ffff
  {
    ServeKeepsBounded(db.Snapshot(), who, orders);
    WhyItFails(db.Snapshot(), who, orders);
    if Serve64(db.Snapshot(), who, orders).Done64? {
      ServedAnswers64(db.Snapshot(), who, orders);
    }
    db.Begin();
    r := ProcessActions64(db, who, orders);
    if r.Err? {
      db.Rollback();
    }
  }
}
