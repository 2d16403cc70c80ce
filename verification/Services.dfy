/** The two services that write the ledger, and what each makes of a timestamp it reads back. */
module Services {
  import opened Schema
  import opened Wallet

  datatype Service = TypeScript | Rust

  const MILLISECOND: Time := 1000

  /** A JavaScript `Date` drops what is below the millisecond; the Rust driver keeps microseconds. */
  function AsRead(service: Service, t: Time): Time {
    if service.TypeScript? then t - t % MILLISECOND else t
  }

  function ReadRow(service: Service, e: Entry): Entry {
    e.(createdAt := AsRead(service, e.createdAt))
  }

  /** The effect as it reaches the tables: the row to mark is looked up by the time that was read. */
  function Seen(service: Service, db: Tables, x: Effect): Effect {
    if x.mark.None? then x
    else
      match Lookup(db.ledger, x.mark.value)
      case None => x
      case Some(e) => if ReadRow(service, e) == e then x else x.(mark := None)
  }

  /** The service reads every row's time as it was written. */
  ghost predicate Legible(service: Service, ledger: seq<Entry>) {
    forall i {:trigger ReadRow(service, ledger[i])} | 0 <= i < |ledger| :: ReadRow(service, ledger[i]) == ledger[i]
  }

  /** The service's own clock: `new Date()` has whole milliseconds, `Utc::now()` need not. */
  predicate Clocked(service: Service, orders: seq<Order>) {
    forall i {:trigger AsRead(service, orders[i].stamp.now)} | 0 <= i < |orders| ::
      AsRead(service, orders[i].stamp.now) == orders[i].stamp.now
  }

  // A minute begins on a whole millisecond, so rounding down to one never leaves the minute.
  lemma StaysAbove(t: int, k: int, q: int)
    requires 60_000_000 * q <= t < 1000 * (k + 1)
    ensures 60_000_000 * q <= 1000 * k
  {
  }

  lemma MinuteStart(t: Time, q: int)
    requires MINUTE * q <= t < MINUTE * (q + 1)
    ensures Minute(t) == MINUTE * q
  {
  }

  lemma ReadKeepsMinute(service: Service, t: Time)
    ensures Minute(AsRead(service, t)) == Minute(t)
  {
    var k, q := t / MILLISECOND, t / MINUTE;
    StaysAbove(t, k, q);
    MinuteStart(t, q);
    MinuteStart(MILLISECOND * k, q);
  }

  lemma LegibleIsSeen(service: Service, db: Tables, x: Effect)
    requires Legible(service, db.ledger)
    ensures Seen(service, db, x) == x
  {
  }

  lemma ApplyKeepsLegible(service: Service, db: Tables, who: Account, o: Order)
    requires Legible(service, db.ledger) && AsRead(service, o.stamp.now) == o.stamp.now && Apply(db, who, o).Done?
    ensures Legible(service, Apply(db, who, o).db.ledger)
  {
    var next := Apply(db, who, o).db.ledger;
    forall i | 0 <= i < |next|
      ensures ReadRow(service, next[i]) == next[i]
    {
      assert i < |db.ledger| ==> ReadRow(service, db.ledger[i]) == db.ledger[i];
    }
  }

  lemma {:induction false} ApplyAllKeepsLegible(service: Service, db: Tables, who: Account, orders: seq<Order>)
    requires Legible(service, db.ledger) && Clocked(service, orders) && ApplyAll(db, who, orders).Done?
    ensures Legible(service, ApplyAll(db, who, orders).db.ledger)
  {
    if |orders| > 0 {
      var n := |orders| - 1;
      ApplyAllKeepsLegible(service, db, who, orders[..n]);
      ApplyKeepsLegible(service, ApplyAll(db, who, orders[..n]).db, who, orders[n]);
    }
  }
}
