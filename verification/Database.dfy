/** The database as an object: one method for each SQL statement the services send, with every key,
    UNIQUE, foreign key and CHECK of the schema as an error the statement can end in. */
module Store {
  import opened Schema
  import opened Wallet
  import opened Rollup
  import opened Reconciliation

  datatype Error = InsufficientFunds | BadRequest | Violation(constraint: string)

  datatype Result<+T> = Ok(value: T) | Err(error: Error)

  /** The outcome of a statement that returns no rows. */
  datatype Check = Pass | Violated(constraint: string)

  /** What a caller returns that has nothing to do after such a statement but to return `value`. */
  function Returned<T>(c: Check, value: T): Result<T> {
    match c
    case Pass => Ok(value)
    case Violated(constraint) => Err(Violation(constraint))
  }

  datatype Claim = Claimed(row: RegistryRow) | Duplicate(txId: TxId)

  /** The CHECK on `actions` that ties `amount` and `original_action_id` to the action type. */
  predicate ColumnsFit(e: Entry) {
    if e.kind == RollbackKind then e.amount.None? && e.original.Some?
    else e.amount.Some? && e.amount.value > 0 && e.original.None?
  }

  /** `SELECT ... WHERE action_id = id AND created_at = at`, first row. */
  function RowAt(ledger: seq<Entry>, id: ActionId, at: Time): Option<Entry> {
    if |ledger| == 0 then None
    else if ledger[0].id == id && ledger[0].createdAt == at then Some(ledger[0])
    else RowAt(ledger[1..], id, at)
  }

  /** The lookup the services use: the registry tells which partition to look in. */
  function RegistryLookup(registry: map<ActionId, RegistryRow>, ledger: seq<Entry>, id: ActionId): Option<Entry> {
    if id in registry then RowAt(ledger, id, registry[id].createdAt) else None
  }

  lemma {:induction false} RowAtFinds(ledger: seq<Entry>, id: ActionId, at: Time, i: nat)
    requires UniqueIds(ledger) && i < |ledger| && ledger[i].id == id && ledger[i].createdAt == at
    ensures RowAt(ledger, id, at) == Some(ledger[i])
  {
    if i > 0 {
      RowAtFinds(ledger[1..], id, at, i - 1);
    }
  }

  lemma {:induction false} RowAtMisses(ledger: seq<Entry>, id: ActionId, at: Time)
    requires forall i | 0 <= i < |ledger| :: ledger[i].id != id
    ensures RowAt(ledger, id, at).None?
  {
    if |ledger| > 0 {
      RowAtMisses(ledger[1..], id, at);
    }
  }

  /** Every ledger row is where the registry says it is. */
  ghost predicate Placed(registry: map<ActionId, RegistryRow>, ledger: seq<Entry>) {
    UniqueIds(ledger)
    && forall i | 0 <= i < |ledger| :: ledger[i].id in registry && registry[ledger[i].id].createdAt == ledger[i].createdAt
  }

  /** The registry-guided lookup returns what a scan of every partition would, also for an id that has
      been claimed but has no ledger row yet. */
  lemma LookupsAgree(registry: map<ActionId, RegistryRow>, ledger: seq<Entry>, id: ActionId)
    requires Placed(registry, ledger)
    ensures RegistryLookup(registry, ledger, id) == Lookup(ledger, id)
  {
    if id in registry {
      match Find(ledger, id)
      case Some(i) => RowAtFinds(ledger, id, registry[id].createdAt, i);
      case None => RowAtMisses(ledger, id, registry[id].createdAt);
    }
  }

  function RowsSet(ledger: seq<Entry>, id: ActionId, at: Time, rollback: ActionId): seq<Entry> {
    seq(|ledger|, i requires 0 <= i < |ledger| =>
      if ledger[i].id == id && ledger[i].createdAt == at then ledger[i].(rolledBackBy := Some(rollback)) else ledger[i])
  }

  /** The update reaches the row of `id` iff it is given the very time of that row, and reaches no other. */
  lemma RowsSetIffTimeFits(ledger: seq<Entry>, id: ActionId, at: Time, rollback: ActionId)
    requires UniqueIds(ledger) && Lookup(ledger, id).Some?
    ensures RowsSet(ledger, id, at, rollback) ==
      if Lookup(ledger, id).value.createdAt == at then Marked(ledger, Some(id), rollback) else ledger
  {
    FindAt(ledger, Find(ledger, id).value);
  }

  class Database {
    var accounts: map<Account, int>
    var registry: map<ActionId, RegistryRow>
    var ledger: seq<Entry>
    var intents: map<ActionId, Intent>
    var outbox: seq<OutboxRow>
    var rollup: map<Bucket, Columns>
    var saved: Tables // what ROLLBACK returns to

    function Snapshot(): Tables
      reads this
    {
      Tables(accounts, registry, ledger, intents, outbox, rollup)
    }

    constructor (t: Tables)
      ensures Snapshot() == t
    {
      accounts, registry, ledger, intents, outbox, rollup :=
        t.accounts, t.registry, t.ledger, t.intents, t.outbox, t.rollup;
      saved := t;
    }

    method Begin()
      modifies this`saved
      ensures saved == Snapshot()
    {
      saved := Snapshot();
    }

    method Rollback()
      modifies this
      ensures Snapshot() == old(saved)
    {
      accounts, registry, ledger, intents, outbox, rollup :=
        saved.accounts, saved.registry, saved.ledger, saved.intents, saved.outbox, saved.rollup;
    }

    method InsertAccountIfAbsent(who: Account)
      modifies this`accounts
      ensures Snapshot() == Open(old(Snapshot()), who)
    {
      if who !in accounts {
        accounts := accounts[who := 0];
      }
    }

    method UpdateBalance(who: Account, balance: int) returns (r: Check)
      requires who in accounts
      modifies this`accounts
      ensures r == if balance >= 0 then Pass else Violated("accounts_balance_check")
      ensures accounts == if r.Pass? then old(accounts)[who := balance] else old(accounts)
    {
      if balance < 0 {
        return Violated("accounts_balance_check");
      }
      accounts := accounts[who := balance];
      return Pass;
    }

    /** `INSERT INTO action_registry ... ON CONFLICT (action_id) DO NOTHING`, or else the existing row. */
    method ClaimAction(id: ActionId, who: Account, txId: TxId, now: Time) returns (r: Result<Claim>)
      modifies this`registry
      ensures id in old(registry) ==> r == Ok(Duplicate(old(registry)[id].txId)) && registry == old(registry)
      ensures id !in old(registry) && r.Ok? ==>
        r.value == Claimed(RegistryRow(txId, who, now)) && registry == old(registry)[id := RegistryRow(txId, who, now)]
      ensures r.Err? <==> id !in old(registry) && exists other | other in old(registry) :: old(registry)[other].txId == txId
      ensures r.Err? ==> registry == old(registry)
    {
      if id in registry {
        return Ok(Duplicate(registry[id].txId));
      }
      if txId in (set other | other in registry :: registry[other].txId) {
        return Err(Violation("action_registry_tx_id_key"));
      }
      registry := registry[id := RegistryRow(txId, who, now)];
      return Ok(Claimed(registry[id]));
    }

    method HasIntent(original: ActionId) returns (found: bool)
      ensures found <==> original in intents
    {
      return original in intents;
    }

    method FindActionForUpdate(id: ActionId) returns (r: Option<Entry>)
      requires Placed(registry, ledger)
      ensures r == Lookup(ledger, id)
    {
      LookupsAgree(registry, ledger, id);
      return RegistryLookup(registry, ledger, id);
    }

    method InsertAction(e: Entry) returns (r: Check)
      modifies this`ledger
      ensures r.Pass? <==>
        (e.id in registry
         && (e.kind == RollbackKind ==> e.amount.None? && e.original.Some?)
         && (e.kind != RollbackKind ==> e.amount.Some? && e.amount.value > 0 && e.original.None?))
      ensures ledger == if r.Pass? then old(ledger) + [e] else old(ledger)
    {
      if e.id !in registry {
        return Violated("actions_action_id_fkey");
      }
      if !ColumnsFit(e) {
        return Violated("actions_check");
      }
      ledger := ledger + [e];
      return Pass;
    }

    method InsertIntent(original: ActionId, rollback: ActionId, who: Account) returns (r: Check)
      modifies this`intents
      ensures r.Pass? <==>
        (original !in old(intents) && rollback in registry
         && forall o | o in old(intents) :: old(intents)[o].rollback != rollback)
      ensures intents == if r.Pass? then old(intents)[original := Intent(rollback, who)] else old(intents)
    {
      if original in intents {
        return Violated("rollback_intents_pkey");
      }
      if rollback in (set o | o in intents :: intents[o].rollback) {
        return Violated("rollback_intents_rollback_action_id_key");
      }
      if rollback !in registry {
        return Violated("rollback_intents_rollback_action_id_fkey");
      }
      intents := intents[original := Intent(rollback, who)];
      return Pass;
    }

    /** `UPDATE actions SET rolled_back_by ... WHERE action_id = id AND created_at = at`. */
    method SetRolledBackBy(id: ActionId, at: Time, rollback: ActionId)
      modifies this`ledger
      ensures ledger == RowsSet(old(ledger), id, at, rollback)
    {
      ledger := RowsSet(ledger, id, at, rollback);
    }

    method EnqueueRtpDelta(id: nat, bucketAt: Time, who: Account, delta: Columns) returns (r: Check)
      modifies this`outbox
      ensures r.Pass? <==> Absent(old(outbox), id)
      ensures outbox == if r.Pass? then old(outbox) + [OutboxRow(id, Bucket(Minute(bucketAt), who), delta, Pending)] else old(outbox)
      ensures r.Pass? ==>
        var minute := outbox[|outbox| - 1].bucket.minute; minute % 60_000_000 == 0 && minute <= bucketAt < minute + 60_000_000
    {
      if exists i | 0 <= i < |outbox| :: outbox[i].id == id {
        return Violated("rtp_outbox_pkey");
      }
      outbox := outbox + [OutboxRow(id, Bucket(Minute(bucketAt), who), delta, Pending)];
      return Pass;
    }

    /** `UPDATE rtp_outbox SET status = 'processing' ... FROM (the first n pending ids, in order) RETURNING id`,
        where `SKIP LOCKED` passes over the rows that other sessions hold. */
    method ClaimPending(n: nat, locked: set<nat>) returns (ids: set<nat>)
      modifies this`outbox
      ensures ids == Lowest(PendingIds(old(outbox)) - locked, n)
      ensures outbox == SetStatus(old(outbox), ids, Processing)
    {
      ids := Lowest(PendingIds(outbox) - locked, n);
      outbox := SetStatus(outbox, ids, Processing);
    }

    method UpsertRollup(ids: set<nat>)
      modifies this`rollup
      ensures rollup == Upsert(old(rollup), Aggregate(outbox, ids))
    {
      rollup := Upsert(rollup, Aggregate(outbox, ids));
    }

    method MarkProcessed(ids: set<nat>)
      modifies this`outbox
      ensures outbox == SetStatus(old(outbox), ids, Processed)
    {
      outbox := SetStatus(outbox, ids, Processed);
    }

    /** `UPDATE rtp_outbox SET status = 'pending' WHERE status = 'processing' AND` the lock is in `stale`. */
    method ResetProcessing(stale: set<nat>) returns (count: nat)
      modifies this`outbox
      ensures count == |ProcessingIds(old(outbox)) * stale|
      ensures outbox == SetStatus(old(outbox), ProcessingIds(old(outbox)) * stale, Pending)
    {
      var ids := ProcessingIds(outbox) * stale;
      outbox := SetStatus(outbox, ids, Pending);
      return |ids|;
    }
  }
}
