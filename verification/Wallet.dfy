/** What one request does to the tables, stated once for the TypeScript and the Rust processor:
    every action is first judged against the tables (`Judge`) and its effect then recorded (`Play`). */
module Wallet {
  import opened Schema

  /** The rows one claimed action writes. `mark` names the row whose `rolled_back_by` it sets and
      `tombstone` the original id it puts into `rollback_intents`. */
  datatype Effect = Effect(
    balance: int, entry: Entry, mark: Option<ActionId>, tombstone: Option<ActionId>, posts: seq<OutboxRow>)

  function Balance(db: Tables, who: Account): int {
    if who in db.accounts then db.accounts[who] else 0
  }

  function KindOf(a: Action): Kind {
    match a
    case Bet(_, _) => BetKind
    case Win(_, _) => WinKind
    case Rollback(_, _) => RollbackKind
  }

  function StatusOf(db: Tables, a: Action): Status {
    match a
    case Rollback(_, original) =>
      if original in db.intents then NoopAlreadyRolledBack
      else (
        match Lookup(db.ledger, original)
        case None => NoopTombstone
        case Some(e) => if e.status == Applied && e.delta != 0 then Applied else NoopOriginalNotApplied)
    case _ => if a.id in db.intents then NoopPrerolled else Applied
  }

  function DeltaOf(db: Tables, a: Action): int {
    if StatusOf(db, a) != Applied then 0
    else
      match a
      case Bet(_, amount) => -amount
      case Win(_, amount) => amount
      case Rollback(_, original) => -Lookup(db.ledger, original).value.delta
  }

  function EntryOf(db: Tables, who: Account, a: Action, s: Stamp): Entry {
    Entry(a.id, s.txId, who, KindOf(a),
          if a.Rollback? then None else Some(a.amount),
          if a.Rollback? then Some(a.original) else None,
          DeltaOf(db, a), StatusOf(db, a), None, s.now)
  }

  function MarkOf(db: Tables, a: Action): Option<ActionId> {
    if a.Rollback? && StatusOf(db, a) == Applied then Some(a.original) else None
  }

  function TombstoneOf(db: Tables, a: Action): Option<ActionId> {
    if a.Rollback? && StatusOf(db, a) != NoopAlreadyRolledBack then Some(a.original) else None
  }

  /** The outbox rows of a rollback of `original`: its removal, bucketed where the original was,
      unless the original is itself a rollback; then the rollback count, bucketed now. */
  function RollbackPosts(original: Entry, who: Account, s: Stamp): seq<OutboxRow> {
    if original.kind == RollbackKind then
      [OutboxRow(s.firstOut, Bucket(Minute(s.now), who), ONE_ROLLBACK, Pending)]
    else
      var amount := if original.amount.Some? then original.amount.value else 0;
      [OutboxRow(s.firstOut, BucketOf(original), RemovedColumns(original.kind, amount), Pending),
       OutboxRow(s.secondOut, Bucket(Minute(s.now), who), ONE_ROLLBACK, Pending)]
  }

  function PostsOf(db: Tables, who: Account, a: Action, s: Stamp): seq<OutboxRow> {
    var status := StatusOf(db, a);
    var here := Bucket(Minute(s.now), who);
    match a
    case Rollback(_, original) =>
      if status == NoopAlreadyRolledBack then []
      else if status == Applied then RollbackPosts(Lookup(db.ledger, original).value, who, s)
      else [OutboxRow(s.firstOut, here, ONE_ROLLBACK, Pending)]
    case _ =>
      var columns := if status == Applied then AppliedColumns(KindOf(a), a.amount) else RolledBackColumns(KindOf(a), a.amount);
      [OutboxRow(s.firstOut, here, columns, Pending)]
  }

  function Judge(db: Tables, who: Account, a: Action, s: Stamp): Effect {
    Effect(Balance(db, who) + DeltaOf(db, a), EntryOf(db, who, a, s), MarkOf(db, a), TombstoneOf(db, a),
           PostsOf(db, who, a, s))
  }

  function Marked(ledger: seq<Entry>, mark: Option<ActionId>, rollback: ActionId): (r: seq<Entry>)
    ensures |r| == |ledger|
  {
    if mark.None? then ledger
    else
      match Find(ledger, mark.value)
      case None => ledger
      case Some(k) => ledger[k := ledger[k].(rolledBackBy := Some(rollback))]
  }

  function Play(db: Tables, x: Effect): Tables {
    db.(accounts := db.accounts[x.entry.account := x.balance],
        registry := db.registry[x.entry.id := RegistryRow(x.entry.txId, x.entry.account, x.entry.createdAt)],
        ledger := Marked(db.ledger, x.mark, x.entry.id) + [x.entry],
        intents := if x.tombstone.Some? then db.intents[x.tombstone.value := Intent(x.entry.id, x.entry.account)]
                   else db.intents,
        outbox := db.outbox + x.posts)
  }

  datatype Reply = Reply(id: ActionId, txId: TxId)

  datatype Outcome = Done(db: Tables, replies: seq<Reply>) | Refused

  /** One action: a known id answers with its first `tx_id`, an overdraft refuses. */
  function Apply(db: Tables, who: Account, o: Order): Outcome {
    if o.action.id in db.registry then
      Done(db, [Reply(o.action.id, db.registry[o.action.id].txId)])
    else
      var x := Judge(db, who, o.action, o.stamp);
      if x.balance < 0 then Refused else Done(Play(db, x), [Reply(o.action.id, o.stamp.txId)])
  }

  function ApplyAll(db: Tables, who: Account, orders: seq<Order>): Outcome {
    if |orders| == 0 then Done(db, [])
    else
      match ApplyAll(db, who, orders[..|orders| - 1])
      case Refused => Refused
      case Done(mid, replies) =>
        match Apply(mid, who, orders[|orders| - 1])
        case Refused => Refused
        case Done(end, reply) => Done(end, replies + reply)
  }

  /** `INSERT INTO accounts ... ON CONFLICT DO NOTHING`. */
  function Open(db: Tables, who: Account): Tables {
    if who in db.accounts then db else db.(accounts := db.accounts[who := 0])
  }

  /** A whole request: all of its actions, or nothing at all. */
  function Serve(db: Tables, who: Account, orders: seq<Order>): Outcome {
    ApplyAll(Open(db, who), who, orders)
  }

  predicate Positive(a: Action) {
    a.Rollback? || a.amount > 0
  }

  predicate Validated(orders: seq<Order>) {
    forall i | 0 <= i < |orders| :: Positive(orders[i].action)
  }

  /** Every action that comes to be claimed is positive. Amounts of ids that are already known play no part,
      and a service that checks amounts only after the claim lets them pass. */
  predicate Admissible(db: Tables, who: Account, orders: seq<Order>) {
    |orders| == 0
    || (var front, last := orders[..|orders| - 1], orders[|orders| - 1].action;
        Admissible(db, who, front)
        && match ApplyAll(db, who, front)
           case Refused => true
           case Done(mid, _) => Positive(last) || last.id in mid.registry)
  }

  lemma {:induction false} ValidatedIsAdmissible(db: Tables, who: Account, orders: seq<Order>)
    requires Validated(orders)
    ensures Admissible(db, who, orders)
  {
    if |orders| > 0 {
      ValidatedIsAdmissible(db, who, orders[..|orders| - 1]);
      assert Positive(orders[|orders| - 1].action);
    }
  }
}
