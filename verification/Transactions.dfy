/** A request in flight, in either service: it reads what is committed now and its own writes, and takes one
    action at a time. Whatever other accounts commit meanwhile, it stays where a serial run would be. */
module Transactions {
  import opened Schema
  import opened Wallet
  import opened Runs
  import opened Slices
  import opened Services
  import opened RustProcessor

  /** What a transaction makes of its next action before it writes anything for it. */
  datatype Verdict = Known(txId: TxId) | Record(effect: Effect) | Refusal

  /** A request holding its account lock: the balance it carries, the rows it wrote and nobody else
      can see yet, and the verdict it reached on its next action but has not acted on. */
  datatype Txn = Txn(
    service: Service, who: Account, orders: seq<Order>, done: nat, balance: int, log: seq<Effect>, replies: seq<Reply>,
    verdict: Option<Verdict>)

  function Locked(service: Service, db: Tables, who: Account, orders: seq<Order>): Txn {
    Txn(service, who, orders, 0, Balance(db, who), [], [], None)
  }

  /** What a transaction sees: what is committed now, and its own writes. */
  function View(db: Tables, t: Txn): Tables {
    PlayAll(Open(db, t.who), t.log)
  }

  /** The amount and balance checks of the two services. */
  predicate Accepts(service: Service, a: Action, balance: int) {
    balance >= 0 && (service.Rust? ==> Positive(a) && balance <= MAX_I64)
  }

  function VerdictOn(view: Tables, t: Txn): Verdict
    requires t.done < |t.orders|
  {
    var o := t.orders[t.done];
    if o.action.id in view.registry then Known(view.registry[o.action.id].txId)
    else
      var x := Judge(view, t.who, o.action, o.stamp).(balance := t.balance + DeltaOf(view, o.action));
      if Accepts(t.service, o.action, x.balance) then Record(Seen(t.service, view, x)) else Refusal
  }

  function Decided(db: Tables, t: Txn): Txn
    requires t.done < |t.orders|
  {
    t.(verdict := Some(VerdictOn(View(db, t), t)))
  }

  function Acted(t: Txn): Txn
    requires t.done < |t.orders| && t.verdict.Some? && !t.verdict.value.Refusal?
  {
    var id := t.orders[t.done].action.id;
    match t.verdict.value
    case Known(txId) => t.(done := t.done + 1, replies := t.replies + [Reply(id, txId)], verdict := None)
    case Record(x) =>
      t.(done := t.done + 1, balance := x.balance, log := t.log + [x],
         replies := t.replies + [Reply(id, t.orders[t.done].stamp.txId)], verdict := None)
  }

  ghost predicate Admitted(db: Tables, t: Txn) {
    && FreshOrders(db, t.orders) && Clocked(t.service, t.orders) && Legible(t.service, db.ledger)
    && (t.service.TypeScript? ==> Validated(t.orders))
  }

  /** What the checks let through: positive amounts, and for the Rust service balances within an `i64`. */
  ghost predicate Checked(service: Service, db: Tables, who: Account, orders: seq<Order>) {
    Admissible(db, who, orders) && (service.Rust? ==> NeverAboveMax(db, who, orders))
  }

  /** The transaction is where serial processing of its action prefix on the committed tables would be. */
  ghost predicate Replays(db: Tables, t: Txn) {
    && t.done <= |t.orders|
    && t.log == Effects(Open(db, t.who), t.who, t.orders[..t.done])
    && ApplyAll(Open(db, t.who), t.who, t.orders[..t.done]) == Done(View(db, t), t.replies)
    && Checked(t.service, Open(db, t.who), t.who, t.orders[..t.done])
    && t.balance == Balance(View(db, t), t.who)
    && (t.verdict.Some? ==> t.done < |t.orders| && t.verdict.value == VerdictOn(View(db, t), t))
  }

  ghost predicate OnTrack(db: Tables, t: Txn) {
    Admitted(db, t) && Replays(db, t)
  }

  lemma ViewIsLegible(db: Tables, t: Txn)
    requires OnTrack(db, t)
    ensures Legible(t.service, View(db, t).ledger)
  {
    ApplyAllKeepsLegible(t.service, Open(db, t.who), t.who, t.orders[..t.done]);
  }

  lemma VerdictIsJudged(db: Tables, t: Txn)
    requires OnTrack(db, t) && t.verdict.Some?
    ensures var view, o := View(db, t), t.orders[t.done]; var x := Judge(view, t.who, o.action, o.stamp);
      t.verdict.value ==
        if o.action.id in view.registry then Known(view.registry[o.action.id].txId)
        else if Accepts(t.service, o.action, x.balance) then Record(x)
        else Refusal
  {
    var o := t.orders[t.done];
    ViewIsLegible(db, t);
    LegibleIsSeen(t.service, View(db, t), Judge(View(db, t), t.who, o.action, o.stamp));
  }

  // The verdict, once acted on, is what serial processing does with the next action.
  lemma VerdictIsApply(db: Tables, t: Txn)
    requires OnTrack(db, t) && t.verdict.Some? && !t.verdict.value.Refusal?
    ensures Apply(View(db, t), t.who, t.orders[t.done]) == Done(View(db, Acted(t)), Acted(t).replies[|t.replies|..])
    ensures Acted(t).replies[..|t.replies|] == t.replies && Acted(t).balance == Balance(View(db, Acted(t)), t.who)
  {
    VerdictIsJudged(db, t);
    if t.verdict.value.Record? {
      PlayAllNext(Open(db, t.who), t.log, t.verdict.value.effect);
    }
  }

  lemma ActLogs(db: Tables, t: Txn)
    requires OnTrack(db, t) && t.verdict.Some? && !t.verdict.value.Refusal?
    ensures Acted(t).log == Effects(Open(db, t.who), t.who, t.orders[..t.done + 1])
  {
    var next := t.orders[..t.done + 1];
    assert next[..t.done] == t.orders[..t.done] && next[t.done] == t.orders[t.done];
    VerdictIsJudged(db, t);
    EffectsNext(Open(db, t.who), t.who, next, View(db, t), t.replies);
  }

  lemma ActChecks(db: Tables, t: Txn)
    requires OnTrack(db, t) && t.verdict.Some? && !t.verdict.value.Refusal?
    ensures Checked(t.service, Open(db, t.who), t.who, t.orders[..t.done + 1])
  {
    var next := t.orders[..t.done + 1];
    assert next[..t.done] == t.orders[..t.done] && next[t.done] == t.orders[t.done];
    VerdictIsJudged(db, t);
    NextApply(Open(db, t.who), t.who, t.orders, t.done, View(db, t), t.replies);
  }

  lemma ActStaysOnTrack(db: Tables, t: Txn)
    requires OnTrack(db, t) && t.verdict.Some? && !t.verdict.value.Refusal?
    ensures OnTrack(db, Acted(t))
  {
    VerdictIsApply(db, t);
    ActLogs(db, t);
    ActChecks(db, t);
    NextApply(Open(db, t.who), t.who, t.orders, t.done, View(db, t), t.replies);
    assert Acted(t).replies == t.replies + Acted(t).replies[|t.replies|..];
  }

  lemma DecideStaysOnTrack(db: Tables, t: Txn)
    requires OnTrack(db, t) && t.done < |t.orders|
    ensures OnTrack(db, Decided(db, t))
  {
    SameVerdict(View(db, t), t, Decided(db, t));
    assert View(db, Decided(db, t)) == View(db, t);
  }

  lemma SameVerdict(view: Tables, t: Txn, u: Txn)
    requires t.done < |t.orders| && u == t.(verdict := u.verdict)
    ensures VerdictOn(view, u) == VerdictOn(view, t)
  {
  }

  lemma OpenSameSlice(ids: set<ActionId>, who: Account, db: Tables, next: Tables)
    requires SameSlice(ids, who, db, next)
    ensures SameSlice(ids, who, Open(db, who), Open(next, who))
  {
    forall id | id in ids
      ensures SameRows(Open(db, who), Open(next, who), id)
    {
      assert SameRows(db, next, id);
    }
  }

  /** The checks look at the slice only. */
  lemma {:induction false} CheckedBySlice(
      service: Service, ids: set<ActionId>, who: Account, a: Tables, b: Tables, orders: seq<Order>)
    requires SameSlice(ids, who, a, b) && AllWithin(ids, orders) && ApplyAll(a, who, orders).Done?
    requires Checked(service, a, who, orders)
    ensures Checked(service, b, who, orders)
  {
    SliceDetermines(ids, who, a, b, orders);
    if |orders| > 0 {
      var n := |orders| - 1;
      CheckedBySlice(service, ids, who, a, b, orders[..n]);
      SliceDetermines(ids, who, a, b, orders[..n]);
      assert orders[n].action.id in NamedIds(orders[n].action) && NamedIds(orders[n].action) <= ids;
      assert SameRows(ApplyAll(a, who, orders[..n]).db, ApplyAll(b, who, orders[..n]).db, orders[n].action.id);
    }
  }

  lemma VerdictElsewhere(ids: set<ActionId>, a: Tables, b: Tables, t: Txn)
    requires SameSlice(ids, t.who, a, b) && t.done < |t.orders| && NamedIds(t.orders[t.done].action) <= ids
    requires Legible(t.service, a.ledger) && Legible(t.service, b.ledger)
    ensures VerdictOn(a, t) == VerdictOn(b, t)
  {
    var o := t.orders[t.done];
    JudgeBySlice(ids, t.who, a, b, o.action, o.stamp);
    assert o.action.id in NamedIds(o.action) && SameRows(a, b, o.action.id);
    var x := Judge(a, t.who, o.action, o.stamp).(balance := t.balance + DeltaOf(a, o.action));
    LegibleIsSeen(t.service, a, x);
    LegibleIsSeen(t.service, b, x);
  }

  // The prefix, without the pending verdict.
  lemma PrefixElsewhere(db: Tables, next: Tables, t: Txn)
    requires OnTrack(db, t) && SameSlice(AllNamed(t.orders), t.who, db, next)
    ensures Replays(next, t.(verdict := None)) && SameSlice(AllNamed(t.orders), t.who, View(db, t), View(next, t))
  {
    var prefix, ids := t.orders[..t.done], AllNamed(t.orders);
    NamedWithin(t.orders);
    OpenSameSlice(ids, t.who, db, next);
    SliceDetermines(ids, t.who, Open(db, t.who), Open(next, t.who), prefix);
    CheckedBySlice(t.service, ids, t.who, Open(db, t.who), Open(next, t.who), prefix);
    EffectsPlay(Open(next, t.who), t.who, prefix);
  }

  /** Another commit that leaves the transaction's slice alone leaves it on track. */
  lemma TrackElsewhere(db: Tables, next: Tables, t: Txn)
    requires OnTrack(db, t) && SameSlice(AllNamed(t.orders), t.who, db, next) && Admitted(next, t)
    ensures OnTrack(next, t)
  {
    PrefixElsewhere(db, next, t);
    if t.verdict.Some? {
      var u := t.(verdict := None);
      assert OnTrack(next, u);
      ViewIsLegible(db, t);
      ViewIsLegible(next, u);
      assert View(next, u) == View(next, t);
      NamedWithin(t.orders);
      VerdictElsewhere(AllNamed(t.orders), View(db, t), View(next, t), t);
    }
  }

  lemma {:induction false} StartsInRange(db: Tables, who: Account, orders: seq<Order>)
    requires NeverAboveMax(db, who, orders)
    ensures Balance(db, who) <= MAX_I64
  {
    if |orders| > 0 {
      StartsInRange(db, who, orders[..|orders| - 1]);
    }
  }

  /** A commit does exactly what serving the whole request now, on its own, would do, replies included, in the
      terms of the exact machine and, for the Rust service, of the bounded one. */
  lemma CommitIsServe(db: Tables, t: Txn)
    requires OnTrack(db, t) && t.done == |t.orders|
    ensures Serve(db, t.who, t.orders) == Done(View(db, t), t.replies)
    ensures Admissible(Open(db, t.who), t.who, t.orders)
    ensures t.service.Rust? ==> Serve64(db, t.who, t.orders) == Done64(View(db, t), t.replies)
  {
    assert t.orders[..t.done] == t.orders;
    if t.service.Rust? {
      RustPrefix(db, t);
    }
  }

  lemma RefusedByTypeScript(db: Tables, t: Txn)
    requires OnTrack(db, t) && t.verdict == Some(Refusal) && t.service.TypeScript?
    ensures Serve(db, t.who, t.orders).Refused?
  {
    VerdictIsJudged(db, t);
    assert Positive(t.orders[t.done].action);
    NextApply(Open(db, t.who), t.who, t.orders, t.done, View(db, t), t.replies);
    RefusedPrefix(Open(db, t.who), t.who, t.orders, t.done + 1);
  }

  // The prefix a Rust transaction has behind it, in the terms of the bounded machine.
  lemma RustPrefix(db: Tables, t: Txn)
    requires Replays(db, t) && t.service.Rust?
    ensures ApplyAll64(Open(db, t.who), t.who, t.orders[..t.done]) == Done64(View(db, t), t.replies)
  {
    StartsInRange(Open(db, t.who), t.who, t.orders[..t.done]);
    RustDiffersOnlyAboveMax(Open(db, t.who), t.who, t.orders[..t.done]);
  }

  lemma RefusedByRust(db: Tables, t: Txn)
    requires OnTrack(db, t) && t.verdict == Some(Refusal) && t.service.Rust?
    ensures Serve64(db, t.who, t.orders).Failed?
  {
    VerdictIsJudged(db, t);
    RustPrefix(db, t);
    NextApply64(Open(db, t.who), t.who, t.orders, t.done, View(db, t), t.replies);
    FailedPrefix(Open(db, t.who), t.who, t.orders, t.done + 1);
  }

  /** A transaction that is refused would be refused as a whole, were it served on its own now. */
  lemma RefusalIsRefused(db: Tables, t: Txn)
    requires OnTrack(db, t) && t.verdict == Some(Refusal)
    ensures match t.service
      case TypeScript => Serve(db, t.who, t.orders).Refused?
      case Rust => Serve64(db, t.who, t.orders).Failed?
  {
    match t.service
    case TypeScript => RefusedByTypeScript(db, t);
    case Rust => RefusedByRust(db, t);
  }
}
