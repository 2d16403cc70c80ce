/** The invariant of the five wallet tables and its preservation by every action. */
module LedgerLaws {
  import opened Schema
  import opened Wallet

  /** Registry and ledger hold the same ids, once each, with the same account, tx id and time. */
  ghost predicate Registered(registry: map<ActionId, RegistryRow>, ledger: seq<Entry>) {
    && UniqueIds(ledger)
    && (forall i | 0 <= i < |ledger| :: ledger[i].id in registry
          && registry[ledger[i].id] == RegistryRow(ledger[i].txId, ledger[i].account, ledger[i].createdAt))
    && (forall id | id in registry :: Find(ledger, id).Some?)
  }

  /** `UNIQUE (tx_id)`. */
  ghost predicate UniqueTx(registry: map<ActionId, RegistryRow>) {
    forall a, b | a in registry && b in registry && a != b :: registry[a].txId != registry[b].txId
  }

  /** The CHECKs of `actions`, and what each status says about the delta. */
  predicate WellShaped(e: Entry) {
    && (e.kind != RollbackKind ==>
          && e.amount.Some? && e.amount.value > 0 && e.original.None?
          && (e.status == Applied || e.status == NoopPrerolled)
          && (e.status == Applied ==> e.delta == if e.kind == BetKind then -e.amount.value else e.amount.value))
    && (e.kind == RollbackKind ==> e.amount.None? && e.original.Some? && e.status != NoopPrerolled)
    && (e.status == Applied <==> e.delta != 0)
    && (e.rolledBackBy.Some? ==> e.status == Applied)
  }

  ghost predicate AllWellShaped(ledger: seq<Entry>) {
    forall i | 0 <= i < |ledger| :: WellShaped(ledger[i])
  }

  /** The intent of `o` was written by a rollback row of `o`. */
  ghost predicate Written(intents: map<ActionId, Intent>, ledger: seq<Entry>, o: ActionId)
    requires o in intents
  {
    var r := Lookup(ledger, intents[o].rollback);
    r.Some? && r.value.kind == RollbackKind && r.value.original == Some(o)
    && r.value.status != NoopAlreadyRolledBack && r.value.account == intents[o].account
  }

  /** A rollback row found an intent of its original, or wrote it. */
  ghost predicate Recorded(intents: map<ActionId, Intent>, e: Entry) {
    e.kind == RollbackKind && e.original.Some? ==>
      e.original.value in intents
      && (e.status != NoopAlreadyRolledBack <==> intents[e.original.value].rollback == e.id)
  }

  ghost predicate IntentsMatch(intents: map<ActionId, Intent>, ledger: seq<Entry>) {
    && (forall o {:trigger Written(intents, ledger, o)} | o in intents :: Written(intents, ledger, o))
    && (forall i {:trigger Recorded(intents, ledger[i])} | 0 <= i < |ledger| :: Recorded(intents, ledger[i]))
  }

  /** A bet or win has an intent iff it was pre-rolled or has been rolled back. */
  ghost predicate TombstoneLaw(intents: map<ActionId, Intent>, ledger: seq<Entry>) {
    forall i | 0 <= i < |ledger| && ledger[i].kind != RollbackKind ::
      ledger[i].id in intents <==> ledger[i].status == NoopPrerolled || ledger[i].rolledBackBy.Some?
  }

  /** The row named by `rolled_back_by` of row `i` is the applied rollback of `i`, came later, and
      moved exactly the opposite amount. */
  ghost predicate Reversed(ledger: seq<Entry>, i: nat)
    requires i < |ledger|
  {
    ledger[i].rolledBackBy.Some? ==>
      var j := Find(ledger, ledger[i].rolledBackBy.value);
      j.Some? && i < j.value && ledger[j.value].kind == RollbackKind && ledger[j.value].status == Applied
      && ledger[j.value].original == Some(ledger[i].id) && ledger[j.value].delta == -ledger[i].delta
  }

  /** An applied rollback `j` is named by the `rolled_back_by` of the earlier row it reversed. */
  ghost predicate Pointed(ledger: seq<Entry>, j: nat)
    requires j < |ledger|
  {
    ledger[j].kind == RollbackKind && ledger[j].status == Applied && ledger[j].original.Some? ==>
      var i := Find(ledger, ledger[j].original.value);
      i.Some? && i.value < j && ledger[i.value].rolledBackBy == Some(ledger[j].id)
  }

  /** `rolled_back_by` points at the one applied rollback of the row, and every applied rollback
      is pointed at by the row it reversed. */
  ghost predicate Linked(ledger: seq<Entry>) {
    && (forall i {:trigger Reversed(ledger, i)} | 0 <= i < |ledger| :: Reversed(ledger, i))
    && (forall j {:trigger Pointed(ledger, j)} | 0 <= j < |ledger| :: Pointed(ledger, j))
  }

  ghost predicate Solvent(db: Tables) {
    && (forall who | who in db.accounts :: db.accounts[who] >= 0)
    && (forall i | 0 <= i < |db.ledger| :: db.ledger[i].account in db.accounts)
  }

  ghost predicate Lawful(db: Tables) {
    && Registered(db.registry, db.ledger)
    && UniqueTx(db.registry)
    && AllWellShaped(db.ledger)
    && IntentsMatch(db.intents, db.ledger)
    && TombstoneLaw(db.intents, db.ledger)
    && Linked(db.ledger)
    && Solvent(db)
  }

  ghost predicate FreshTx(db: Tables, s: Stamp) {
    forall id | id in db.registry :: db.registry[id].txId != s.txId
  }

  // What `Marked(ledger, mark, rollback) + [e]` looks like row by row.
  lemma MarkedRows(ledger: seq<Entry>, mark: Option<ActionId>, rollback: ActionId, e: Entry)
    requires UniqueIds(ledger)
    ensures var next := Marked(ledger, mark, rollback) + [e];
      && |next| == |ledger| + 1 && next[|ledger|] == e
      && forall i | 0 <= i < |ledger| ::
           next[i] == if mark == Some(ledger[i].id) then ledger[i].(rolledBackBy := Some(rollback)) else ledger[i]
  {
    if mark.Some? && Find(ledger, mark.value).Some? {
      var k := Find(ledger, mark.value).value;
      forall i | 0 <= i < |ledger|
        ensures mark == Some(ledger[i].id) <==> i == k
      {}
    }
  }

  // Where a scan ends after an append: new rows never hide old ones.
  lemma FindNext(ledger: seq<Entry>, mark: Option<ActionId>, e: Entry, id: ActionId)
    requires UniqueIds(ledger) && Find(ledger, e.id).None?
    ensures var next := Marked(ledger, mark, e.id) + [e];
      UniqueIds(next) && Find(next, id) == if id == e.id then Some(|ledger|) else Find(ledger, id)
  {
    MarkedRows(ledger, mark, e.id, e);
    var next := Marked(ledger, mark, e.id) + [e];
    if id == e.id {
      FindAt(next, |ledger|);
    } else if Find(ledger, id).Some? {
      assert next[Find(ledger, id).value].id == id;
      FindAt(next, Find(ledger, id).value);
    }
  }

  /** A validated action that is about to be claimed, with a fresh transaction id. */
  ghost predicate Claimable(db: Tables, a: Action, s: Stamp) {
    a.id !in db.registry && Positive(a) && FreshTx(db, s)
  }

  /** A row is appended; when it is an applied rollback, it marks an earlier unreversed row. */
  ghost predicate Appends(ledger: seq<Entry>, x: Effect) {
    && Find(ledger, x.entry.id).None?
    && WellShaped(x.entry) && x.entry.rolledBackBy.None?
    && x.mark == (if x.entry.kind == RollbackKind && x.entry.status == Applied then x.entry.original else None)
    && (x.mark.Some? ==>
          var k := Find(ledger, x.mark.value);
          k.Some? && ledger[k.value].rolledBackBy.None? && ledger[k.value].delta == -x.entry.delta)
    && (x.mark.None? && x.tombstone.Some? ==>
          var k := Find(ledger, x.tombstone.value); k.Some? ==> ledger[k.value].status != Applied)
  }

  /** The intent written, or found, for the row that is appended. */
  ghost predicate Intends(intents: map<ActionId, Intent>, x: Effect) {
    && (x.entry.kind == RollbackKind && x.entry.original.Some? ==>
          (x.entry.original.value in intents <==> x.entry.status == NoopAlreadyRolledBack))
    && (x.entry.kind != RollbackKind ==> (x.entry.id in intents <==> x.entry.status == NoopPrerolled))
    && x.tombstone == (if x.entry.kind == RollbackKind && x.entry.status != NoopAlreadyRolledBack then x.entry.original else None)
  }

  lemma ReversedHasIntent(db: Tables, k: nat)
    requires Lawful(db) && k < |db.ledger| && db.ledger[k].rolledBackBy.Some?
    ensures db.ledger[k].id in db.intents
  {
    assert Reversed(db.ledger, k);
    assert Recorded(db.intents, db.ledger[Find(db.ledger, db.ledger[k].rolledBackBy.value).value]);
  }

  // A row that a rollback may reverse has not been reversed yet.
  lemma TargetIsUnreversed(db: Tables, a: Action)
    requires Lawful(db) && a.Rollback? && StatusOf(db, a) == Applied
    ensures Lookup(db.ledger, a.original).value.rolledBackBy.None?
  {
    var k := Find(db.ledger, a.original).value;
    if db.ledger[k].rolledBackBy.Some? {
      ReversedHasIntent(db, k);
    }
  }

  lemma UnclaimedHasNoRow(db: Tables, id: ActionId)
    requires Registered(db.registry, db.ledger) && id !in db.registry
    ensures Find(db.ledger, id).None?
  {
  }

  lemma AppendFits(db: Tables, who: Account, a: Action, s: Stamp)
    requires AllWellShaped(db.ledger) && Find(db.ledger, a.id).None? && Positive(a)
    requires a.Rollback? && StatusOf(db, a) == Applied ==> Lookup(db.ledger, a.original).value.rolledBackBy.None?
    ensures Appends(db.ledger, Judge(db, who, a, s))
  {
  }

  lemma JudgementFits(db: Tables, who: Account, a: Action, s: Stamp)
    requires Lawful(db) && Claimable(db, a, s)
    ensures var x := Judge(db, who, a, s); Appends(db.ledger, x) && Intends(db.intents, x)
  {
    UnclaimedHasNoRow(db, a.id);
    if a.Rollback? && StatusOf(db, a) == Applied {
      TargetIsUnreversed(db, a);
    }
    AppendFits(db, who, a, s);
  }

  lemma KeepsRegistered(db: Tables, x: Effect)
    requires Registered(db.registry, db.ledger) && UniqueTx(db.registry)
    requires Find(db.ledger, x.entry.id).None?
    requires forall id | id in db.registry :: db.registry[id].txId != x.entry.txId
    ensures Registered(Play(db, x).registry, Play(db, x).ledger) && UniqueTx(Play(db, x).registry)
  {
    var next := Play(db, x);
    MarkedRows(db.ledger, x.mark, x.entry.id, x.entry);
    forall id | id in next.registry
      ensures Find(next.ledger, id).Some?
    {
      FindNext(db.ledger, x.mark, x.entry, id);
    }
    FindNext(db.ledger, x.mark, x.entry, x.entry.id);
  }

  lemma KeepsWritten(db: Tables, x: Effect, o: ActionId)
    requires UniqueIds(db.ledger) && IntentsMatch(db.intents, db.ledger)
    requires Appends(db.ledger, x) && Intends(db.intents, x) && o in Play(db, x).intents
    ensures Written(Play(db, x).intents, Play(db, x).ledger, o)
  {
    var next := Play(db, x);
    MarkedRows(db.ledger, x.mark, x.entry.id, x.entry);
    FindNext(db.ledger, x.mark, x.entry, next.intents[o].rollback);
    if x.tombstone != Some(o) {
      assert Written(db.intents, db.ledger, o);
    }
  }

  lemma KeepsIntents(db: Tables, x: Effect)
    requires UniqueIds(db.ledger) && IntentsMatch(db.intents, db.ledger)
    requires Appends(db.ledger, x) && Intends(db.intents, x)
    ensures IntentsMatch(Play(db, x).intents, Play(db, x).ledger)
  {
    var next := Play(db, x);
    forall o | o in next.intents
      ensures Written(next.intents, next.ledger, o)
    {
      KeepsWritten(db, x, o);
    }
    MarkedRows(db.ledger, x.mark, x.entry.id, x.entry);
    forall i | 0 <= i < |next.ledger|
      ensures Recorded(next.intents, next.ledger[i])
    {
      if i < |db.ledger| {
        assert Recorded(db.intents, db.ledger[i]);
      } else if x.tombstone.None? && x.entry.kind == RollbackKind {
        assert Written(db.intents, db.ledger, x.entry.original.value);
      }
    }
  }

  lemma KeepsTombstones(db: Tables, x: Effect)
    requires UniqueIds(db.ledger) && TombstoneLaw(db.intents, db.ledger)
    requires Appends(db.ledger, x) && Intends(db.intents, x)
    requires AllWellShaped(db.ledger)
    ensures TombstoneLaw(Play(db, x).intents, Play(db, x).ledger)
  {
    var next := Play(db, x);
    MarkedRows(db.ledger, x.mark, x.entry.id, x.entry);
    forall i | 0 <= i < |next.ledger| && next.ledger[i].kind != RollbackKind
      ensures next.ledger[i].id in next.intents
         <==> next.ledger[i].status == NoopPrerolled || next.ledger[i].rolledBackBy.Some?
    {
      if i < |db.ledger| {
        FindAt(db.ledger, i);
      }
    }
  }

  lemma KeepsReversals(db: Tables, x: Effect, i: nat)
    requires UniqueIds(db.ledger) && Linked(db.ledger) && Appends(db.ledger, x)
    requires i <= |db.ledger|
    ensures Reversed(Play(db, x).ledger, i)
  {
    var next := Play(db, x).ledger;
    MarkedRows(db.ledger, x.mark, x.entry.id, x.entry);
    if next[i].rolledBackBy.Some? {
      FindNext(db.ledger, x.mark, x.entry, next[i].rolledBackBy.value);
      if x.mark == Some(next[i].id) {
        FindAt(db.ledger, i);
      } else {
        assert Reversed(db.ledger, i);
      }
    }
  }

  lemma KeepsOriginals(db: Tables, x: Effect, j: nat)
    requires UniqueIds(db.ledger) && Linked(db.ledger) && Appends(db.ledger, x)
    requires j <= |db.ledger|
    ensures Pointed(Play(db, x).ledger, j)
  {
    var next := Play(db, x).ledger;
    MarkedRows(db.ledger, x.mark, x.entry.id, x.entry);
    if next[j].original.Some? {
      FindNext(db.ledger, x.mark, x.entry, next[j].original.value);
      if j < |db.ledger| {
        assert Pointed(db.ledger, j);
      }
    }
  }

  lemma KeepsLinks(db: Tables, x: Effect)
    requires UniqueIds(db.ledger) && Linked(db.ledger) && Appends(db.ledger, x)
    ensures Linked(Play(db, x).ledger)
  {
    var next := Play(db, x).ledger;
    forall i | 0 <= i < |next|
      ensures Reversed(next, i)
    {
      KeepsReversals(db, x, i);
    }
    forall j | 0 <= j < |next|
      ensures Pointed(next, j)
    {
      KeepsOriginals(db, x, j);
    }
  }

  lemma KeepsShape(db: Tables, x: Effect)
    requires UniqueIds(db.ledger) && AllWellShaped(db.ledger) && Linked(db.ledger) && Appends(db.ledger, x)
    ensures AllWellShaped(Play(db, x).ledger)
  {
    MarkedRows(db.ledger, x.mark, x.entry.id, x.entry);
    forall i | 0 <= i < |db.ledger|
      ensures WellShaped(Play(db, x).ledger[i])
    {
      FindAt(db.ledger, i);
    }
  }

  lemma KeepsSolvent(db: Tables, x: Effect)
    requires UniqueIds(db.ledger) && Solvent(db) && x.balance >= 0
    ensures Solvent(Play(db, x))
  {
    MarkedRows(db.ledger, x.mark, x.entry.id, x.entry);
  }

  lemma EffectKeepsLaws(db: Tables, x: Effect)
    requires Lawful(db) && Appends(db.ledger, x) && Intends(db.intents, x) && x.balance >= 0
    requires forall id | id in db.registry :: db.registry[id].txId != x.entry.txId
    ensures Lawful(Play(db, x))
  {
    KeepsRegistered(db, x);
    KeepsShape(db, x);
    KeepsIntents(db, x);
    KeepsTombstones(db, x);
    KeepsLinks(db, x);
    KeepsSolvent(db, x);
  }

  /** An action that does not overdraw the account keeps the whole invariant. */
  lemma ActionKeepsLaws(db: Tables, who: Account, a: Action, s: Stamp)
    requires Lawful(db) && Claimable(db, a, s) && Judge(db, who, a, s).balance >= 0
    ensures Lawful(Play(db, Judge(db, who, a, s)))
  {
    JudgementFits(db, who, a, s);
    EffectKeepsLaws(db, Judge(db, who, a, s));
  }
}
