/** What a request can see and change: its account, and the rows of the ids it names. */
module Slices {
  import opened Schema
  import opened Wallet

  /** The ids an action names: its own and, for a rollback, its original's. */
  function NamedIds(a: Action): set<ActionId> {
    if a.Rollback? then {a.id, a.original} else {a.id}
  }

  function AllNamed(orders: seq<Order>): set<ActionId> {
    set o, id | o in orders && id in NamedIds(o.action) :: id
  }

  ghost predicate AllWithin(ids: set<ActionId>, orders: seq<Order>) {
    forall i | 0 <= i < |orders| :: NamedIds(orders[i].action) <= ids
  }

  ghost predicate AllOutside(ids: set<ActionId>, orders: seq<Order>) {
    forall i | 0 <= i < |orders| :: NamedIds(orders[i].action) !! ids
  }

  lemma NamedWithin(orders: seq<Order>)
    ensures AllWithin(AllNamed(orders), orders)
  {
    forall i | 0 <= i < |orders|
      ensures NamedIds(orders[i].action) <= AllNamed(orders)
    {
      assert orders[i] in orders;
    }
  }

  lemma NamedOutside(orders: seq<Order>, others: seq<Order>)
    requires AllNamed(orders) !! AllNamed(others)
    ensures AllOutside(AllNamed(orders), others)
  {
    NamedWithin(others);
    forall i | 0 <= i < |others|
      ensures NamedIds(others[i].action) !! AllNamed(orders)
    {
      assert NamedIds(others[i].action) <= AllNamed(others);
    }
  }

  /** The account `who` and the rows of `ids` are the same in both databases. */
  ghost predicate SameSlice(ids: set<ActionId>, who: Account, a: Tables, b: Tables) {
    && (who in a.accounts <==> who in b.accounts) && Balance(a, who) == Balance(b, who)
    && (forall id | id in ids :: SameRows(a, b, id))
  }

  ghost predicate SameRows(a: Tables, b: Tables, id: ActionId) {
    && (id in a.registry <==> id in b.registry) && (id in a.registry ==> a.registry[id] == b.registry[id])
    && (id in a.intents <==> id in b.intents) && (id in a.intents ==> a.intents[id] == b.intents[id])
    && Lookup(a.ledger, id) == Lookup(b.ledger, id)
  }

  lemma {:induction false} FindById(a: seq<Entry>, b: seq<Entry>, id: ActionId)
    requires |a| == |b| && forall i | 0 <= i < |a| :: a[i].id == b[i].id
    ensures Find(a, id) == Find(b, id)
  {
    if |a| > 0 {
      FindById(a[..|a| - 1], b[..|b| - 1], id);
    }
  }

  lemma LookupNext(ledger: seq<Entry>, mark: Option<ActionId>, e: Entry, id: ActionId)
    ensures Lookup(Marked(ledger, mark, e.id) + [e], id) ==
      if id == e.id then Some(e)
      else if mark == Some(id) && Lookup(ledger, id).Some? then Some(Lookup(ledger, id).value.(rolledBackBy := Some(e.id)))
      else Lookup(ledger, id)
  {
    var marked := Marked(ledger, mark, e.id);
    assert (marked + [e])[..|marked|] == marked;
    FindById(marked, ledger, id);
  }

  lemma PlaySameSlice(ids: set<ActionId>, who: Account, a: Tables, b: Tables, x: Effect)
    requires SameSlice(ids, who, a, b)
    ensures SameSlice(ids, who, Play(a, x), Play(b, x))
  {
    forall id | id in ids
      ensures SameRows(Play(a, x), Play(b, x), id)
    {
      assert SameRows(a, b, id);
      LookupNext(a.ledger, x.mark, x.entry, id);
      LookupNext(b.ledger, x.mark, x.entry, id);
    }
  }

  /** The verdict on an action depends on its account and the rows of the ids it names. */
  lemma JudgeBySlice(ids: set<ActionId>, who: Account, a: Tables, b: Tables, act: Action, s: Stamp)
    requires SameSlice(ids, who, a, b) && NamedIds(act) <= ids
    ensures Judge(a, who, act, s) == Judge(b, who, act, s) && (act.id in a.registry <==> act.id in b.registry)
  {
    assert SameRows(a, b, act.id);
    if act.Rollback? {
      assert SameRows(a, b, act.original);
    }
  }

  /** An action of another account that names none of the ids leaves the slice alone. */
  lemma PlayElsewhere(ids: set<ActionId>, who: Account, db: Tables, other: Account, act: Action, s: Stamp)
    requires other != who && NamedIds(act) !! ids
    ensures SameSlice(ids, who, db, Play(db, Judge(db, other, act, s)))
  {
    var x := Judge(db, other, act, s);
    forall id | id in ids
      ensures SameRows(db, Play(db, x), id)
    {
      LookupNext(db.ledger, x.mark, x.entry, id);
    }
  }

  lemma SliceTransitive(ids: set<ActionId>, who: Account, a: Tables, b: Tables, c: Tables)
    requires SameSlice(ids, who, a, b) && SameSlice(ids, who, b, c)
    ensures SameSlice(ids, who, a, c)
  {
    forall id | id in ids
      ensures SameRows(a, c, id)
    {
      assert SameRows(a, b, id) && SameRows(b, c, id);
    }
  }

  lemma {:induction false} ApplyAllElsewhere(ids: set<ActionId>, who: Account, db: Tables, other: Account, orders: seq<Order>)
    requires other != who && AllOutside(ids, orders) && ApplyAll(db, other, orders).Done?
    ensures SameSlice(ids, who, db, ApplyAll(db, other, orders).db)
  {
    if |orders| > 0 {
      var n := |orders| - 1;
      var o := orders[n];
      assert NamedIds(o.action) !! ids;
      ApplyAllElsewhere(ids, who, db, other, orders[..n]);
      var mid := ApplyAll(db, other, orders[..n]).db;
      if o.action.id !in mid.registry {
        PlayElsewhere(ids, who, mid, other, o.action, o.stamp);
        SliceTransitive(ids, who, db, mid, ApplyAll(db, other, orders).db);
      }
    }
  }

  /** So does a whole request of another account. */
  lemma ServeElsewhere(ids: set<ActionId>, who: Account, db: Tables, other: Account, orders: seq<Order>)
    requires other != who && AllOutside(ids, orders) && Serve(db, other, orders).Done?
    ensures SameSlice(ids, who, db, Serve(db, other, orders).db)
  {
    assert SameSlice(ids, who, db, Open(db, other));
    ApplyAllElsewhere(ids, who, Open(db, other), other, orders);
    SliceTransitive(ids, who, db, Open(db, other), Serve(db, other, orders).db);
  }

  /** The rows a request writes, action by action. */
  function Effects(db: Tables, who: Account, orders: seq<Order>): seq<Effect> {
    if |orders| == 0 then []
    else
      var n := |orders| - 1;
      Effects(db, who, orders[..n])
        + match ApplyAll(db, who, orders[..n])
          case Refused => []
          case Done(mid, _) =>
            if orders[n].action.id in mid.registry then [] else [Judge(mid, who, orders[n].action, orders[n].stamp)]
  }

  function PlayAll(db: Tables, xs: seq<Effect>): Tables {
    if |xs| == 0 then db else Play(PlayAll(db, xs[..|xs| - 1]), xs[|xs| - 1])
  }

  lemma PlayAllNext(db: Tables, xs: seq<Effect>, x: Effect)
    ensures PlayAll(db, xs + [x]) == Play(PlayAll(db, xs), x)
  {
    assert (xs + [x])[..|xs|] == xs;
  }

  /** One more action, seen from the effects. */
  lemma EffectsNext(db: Tables, who: Account, orders: seq<Order>, mid: Tables, replies: seq<Reply>)
    requires |orders| > 0 && ApplyAll(db, who, orders[..|orders| - 1]) == Done(mid, replies)
    ensures var o, front := orders[|orders| - 1], Effects(db, who, orders[..|orders| - 1]);
      Effects(db, who, orders) ==
        if o.action.id in mid.registry then front else front + [Judge(mid, who, o.action, o.stamp)]
  {
  }

  lemma {:induction false} EffectsPlay(db: Tables, who: Account, orders: seq<Order>)
    requires ApplyAll(db, who, orders).Done?
    ensures PlayAll(db, Effects(db, who, orders)) == ApplyAll(db, who, orders).db
  {
    if |orders| > 0 {
      var n := |orders| - 1;
      var before := ApplyAll(db, who, orders[..n]);
      EffectsPlay(db, who, orders[..n]);
      EffectsNext(db, who, orders, before.db, before.replies);
      PlayLast(db, before.db, Effects(db, who, orders[..n]), who, orders[n]);
    }
  }

  lemma PlayLast(db: Tables, mid: Tables, xs: seq<Effect>, who: Account, o: Order)
    requires PlayAll(db, xs) == mid && Apply(mid, who, o).Done?
    ensures PlayAll(db, if o.action.id in mid.registry then xs else xs + [Judge(mid, who, o.action, o.stamp)])
         == Apply(mid, who, o).db
  {
    PlayAllNext(db, xs, Judge(mid, who, o.action, o.stamp));
  }

  /** How far a request gets, what it answers and what it writes depend on its slice only. */
  lemma {:induction false} SliceDetermines(ids: set<ActionId>, who: Account, a: Tables, b: Tables, orders: seq<Order>)
    requires SameSlice(ids, who, a, b) && AllWithin(ids, orders) && ApplyAll(a, who, orders).Done?
    ensures var ra, rb := ApplyAll(a, who, orders), ApplyAll(b, who, orders);
      rb.Done? && ra.replies == rb.replies && SameSlice(ids, who, ra.db, rb.db)
    ensures Effects(a, who, orders) == Effects(b, who, orders)
  {
    if |orders| > 0 {
      var n := |orders| - 1;
      var o := orders[n];
      assert NamedIds(o.action) <= ids;
      SliceDetermines(ids, who, a, b, orders[..n]);
      var ma, mb := ApplyAll(a, who, orders[..n]).db, ApplyAll(b, who, orders[..n]).db;
      JudgeBySlice(ids, who, ma, mb, o.action, o.stamp);
      assert SameRows(ma, mb, o.action.id);
      PlaySameSlice(ids, who, ma, mb, Judge(ma, who, o.action, o.stamp));
    }
  }
}
