/** Both services on one database. The TypeScript service looks for the original by the time it read, so a
    row the Rust service wrote between two milliseconds is reversed without being marked. */
module Mixed {
  import opened Schema
  import opened Wallet
  import opened LedgerLaws
  import opened Reconciliation
  import opened Runs
  import opened Services
  import opened Agreement

  /** The tables after `service` processed the action, mark or no mark. */
  function After(service: Service, db: Tables, who: Account, a: Action, s: Stamp): Tables {
    Play(db, Seen(service, db, Judge(db, who, a, s)))
  }

  lemma UnmarkedRow(db: Tables, who: Account, a: Action, s: Stamp)
    requires Lawful(db) && Claimable(db, a, s) && Target(db, a).Some?
    requires ReadRow(TypeScript, Target(db, a).value) != Target(db, a).value
    ensures After(TypeScript, db, who, a, s).ledger == db.ledger + [EntryOf(db, who, a, s)]
    ensures !Linked(After(TypeScript, db, who, a, s).ledger)
  {
    var e := EntryOf(db, who, a, s);
    var next := After(TypeScript, db, who, a, s).ledger;
    assert next == db.ledger + [e];
    UnclaimedHasNoRow(db, a.id);
    TargetIsUnreversed(db, a);
    FindNext(db.ledger, None, e, a.original);
    assert !Pointed(next, |db.ledger|);
  }

  /** A reversal by the TypeScript service keeps the laws of the tables iff the time of the original has
      whole milliseconds. */
  lemma MarkedIffWholeMilliseconds(db: Tables, who: Account, a: Action, s: Stamp)
    requires Lawful(db) && Claimable(db, a, s) && Judge(db, who, a, s).balance >= 0 && Target(db, a).Some?
    ensures Lawful(After(TypeScript, db, who, a, s)) <==> Target(db, a).value.createdAt % 1000 == 0
  {
    if Target(db, a).value.createdAt % 1000 == 0 {
      ActionKeepsLaws(db, who, a, s);
    } else {
      UnmarkedRow(db, who, a, s);
    }
  }

  lemma RemovalIsAmount(db: Tables, who: Account, a: Action, s: Stamp, m: Measure)
    requires AllWellShaped(db.ledger) && Target(db, a).Some? && Target(db, a).value.rolledBackBy.None?
    requires Target(db, a).value.kind == (if m == TotalBet then BetKind else WinKind) && (m == TotalBet || m == TotalWin)
    ensures OutboxSum(PostsOf(db, who, a, s), iset{BucketOf(Target(db, a).value)}, ANY_STATUS, m) < 0
  {
    assert WellShaped(db.ledger[Find(db.ledger, a.original).value]);
    ReversalIsPosted(db, who, a, s, iset{BucketOf(Target(db, a).value)}, m);
  }

  /** What the reports then lose: the removal is posted, the row still counts. */
  lemma UnmarkedIsUnreconciled(db: Tables, who: Account, a: Action, s: Stamp)
    requires Good(db) && Claimable(db, a, s) && Target(db, a).Some? && Target(db, a).value.kind != RollbackKind
    requires Target(db, a).value.createdAt % 1000 != 0
    ensures !Reconciled(After(TypeScript, db, who, a, s))
  {
    var e := Target(db, a).value;
    var m := if e.kind == BetKind then TotalBet else TotalWin;
    UnmarkedRow(db, who, a, s);
    TargetIsUnreversed(db, a);
    RemovalIsAmount(db, who, a, s, m);
    UnmarkedSums(db, After(TypeScript, db, who, a, s), EntryOf(db, who, a, s), PostsOf(db, who, a, s), iset{BucketOf(e)}, m);
  }

  lemma UnmarkedSums(db: Tables, next: Tables, e: Entry, posts: seq<OutboxRow>, f: iset<Bucket>, m: Measure)
    requires Reconciled(db) && next.ledger == db.ledger + [e] && next.outbox == db.outbox + posts
    requires Contribution(e).At(m) == 0 && OutboxSum(posts, f, ANY_STATUS, m) < 0
    ensures !Reconciled(next)
  {
    assert next.ledger[..|db.ledger|] == db.ledger;
    OutboxSumAppend(db.outbox, posts, f, ANY_STATUS, m);
    assert OutboxSum(next.outbox, f, ANY_STATUS, m) < LedgerSum(next.ledger, f, m);
  }

  /** Such a run: the Rust service records a bet at a time between two milliseconds, the TypeScript service
      rolls it back. The intent is there and the money is back, but the bet is not marked, and the reports no
      longer agree with the ledger. */
  lemma RustBetTypeScriptRollback(db: Tables, who: Account, amount: int, t: Time, s: Stamp)
    requires db == Tables(db.accounts, map[], [], map[], [], map[]) && who in db.accounts && 0 < amount <= db.accounts[who]
    requires (forall a | a in db.accounts :: db.accounts[a] >= 0) && t % 1000 != 0
    requires s.txId != 1 && s.firstOut > 2 && s.secondOut > 2 && s.firstOut != s.secondOut
    ensures var first := Apply(db, who, Order(Bet(1, amount), Stamp(1, t, 1, 2)));
      && first.Done? && Good(first.db)
      && var end := After(TypeScript, first.db, who, Rollback(2, 1), s);
         Balance(end, who) == Balance(db, who) && 1 in end.intents && end.ledger[0].id == 1
         && end.ledger[0].rolledBackBy.None? && !TombstoneLaw(end.intents, end.ledger) && !Lawful(end) && !Reconciled(end)
  {
    var o := Order(Bet(1, amount), Stamp(1, t, 1, 2));
    SeededIsGood(db);
    assert StatusOf(db, o.action) == Applied;
    ApplyKeepsGood(db, who, o);
    var mid := Apply(db, who, o).db;
    var a := Rollback(2, 1);
    assert mid.ledger == [EntryOf(db, who, o.action, o.stamp)];
    assert Find(mid.ledger, 1) == Some(0);
    assert StatusOf(mid, a) == Applied && Target(mid, a) == Some(mid.ledger[0]);
    UnmarkedRow(mid, who, a, s);
    UnmarkedIsUnreconciled(mid, who, a, s);
    var end := After(TypeScript, mid, who, a, s);
    assert end.ledger[0] == mid.ledger[0] && end.ledger[0].id in end.intents;
  }
}
