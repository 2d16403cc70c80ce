/** The tables of the wallet database as values, and the sums the reports are made of. */
module Schema {

  datatype Option<+T> = None | Some(value: T)

  // UUIDs and text keys are compared and stored, never taken apart.
  type ActionId = nat
  type TxId = nat
  type Time = int // microseconds, the resolution of `timestamptz`

  datatype Account = Account(user: nat, currency: nat)

  /** One element of a request's `actions` array. */
  datatype Action =
    | Bet(id: ActionId, amount: int)
    | Win(id: ActionId, amount: int)
    | Rollback(id: ActionId, original: ActionId)

  /** What the environment supplies when an action is claimed: a random `tx_id`, the clock, and
      the two sequence numbers its outbox rows would get. */
  datatype Stamp = Stamp(txId: TxId, now: Time, firstOut: nat, secondOut: nat)

  datatype Order = Order(action: Action, stamp: Stamp)

  datatype Kind = BetKind | WinKind | RollbackKind

  datatype Status = Applied | NoopPrerolled | NoopTombstone | NoopAlreadyRolledBack | NoopOriginalNotApplied

  datatype RegistryRow = RegistryRow(txId: TxId, account: Account, createdAt: Time)

  /** A row of `actions`; `amount` and `original` are the nullable columns. */
  datatype Entry = Entry(
    id: ActionId, txId: TxId, account: Account, kind: Kind, amount: Option<int>, original: Option<ActionId>,
    delta: int, status: Status, rolledBackBy: Option<ActionId>, createdAt: Time)

  datatype Intent = Intent(rollback: ActionId, account: Account)

  datatype Measure = TotalBet | TotalWin | Rounds | RollbackCount | RolledBackBet | RolledBackWin

  /** The six measures carried by outbox deltas and rollup rows. */
  datatype Columns = Columns(
    totalBet: int, totalWin: int, rounds: int, rollbackCount: int, rolledBackBet: int, rolledBackWin: int)
  {
    function At(m: Measure): int {
      match m
      case TotalBet => totalBet
      case TotalWin => totalWin
      case Rounds => rounds
      case RollbackCount => rollbackCount
      case RolledBackBet => rolledBackBet
      case RolledBackWin => rolledBackWin
    }

    function Plus(c: Columns): (r: Columns)
      ensures forall m: Measure :: r.At(m) == At(m) + c.At(m)
    {
      Columns(totalBet + c.totalBet, totalWin + c.totalWin, rounds + c.rounds,
              rollbackCount + c.rollbackCount, rolledBackBet + c.rolledBackBet, rolledBackWin + c.rolledBackWin)
    }
  }

  const ZERO := Columns(0, 0, 0, 0, 0, 0)

  lemma SameColumns(a: Columns, b: Columns)
    requires forall m: Measure :: a.At(m) == b.At(m)
    ensures a == b
  {
    assert a.At(TotalBet) == b.At(TotalBet) && a.At(TotalWin) == b.At(TotalWin) && a.At(Rounds) == b.At(Rounds);
    assert a.At(RollbackCount) == b.At(RollbackCount);
    assert a.At(RolledBackBet) == b.At(RolledBackBet) && a.At(RolledBackWin) == b.At(RolledBackWin);
  }

  lemma PlusZero(c: Columns)
    ensures c.Plus(ZERO) == c
  {
    SameColumns(c.Plus(ZERO), c);
  }

  /** The key of a rollup row: a minute and an account. */
  datatype Bucket = Bucket(minute: Time, account: Account)

  datatype OutboxStatus = Pending | Processing | Processed

  datatype OutboxRow = OutboxRow(id: nat, bucket: Bucket, delta: Columns, status: OutboxStatus)

  datatype Tables = Tables(
    accounts: map<Account, int>,
    registry: map<ActionId, RegistryRow>,
    ledger: seq<Entry>,
    intents: map<ActionId, Intent>,
    outbox: seq<OutboxRow>,
    rollup: map<Bucket, Columns>)

  const MINUTE: Time := 60_000_000

  /** `date_trunc('minute', t)`. */
  function Minute(t: Time): (m: Time)
    ensures m <= t < m + 60_000_000 && m % 60_000_000 == 0
  {
    t - t % MINUTE
  }

  /** The row a scan of the whole ledger for `id` ends on. */
  function Find(ledger: seq<Entry>, id: ActionId): (r: Option<nat>)
    ensures r.Some? ==> r.value < |ledger| && ledger[r.value].id == id
    ensures r.None? ==> forall i | 0 <= i < |ledger| :: ledger[i].id != id
  {
    if |ledger| == 0 then None
    else if ledger[|ledger| - 1].id == id then Some(|ledger| - 1)
    else Find(ledger[..|ledger| - 1], id)
  }

  function Lookup(ledger: seq<Entry>, id: ActionId): Option<Entry> {
    match Find(ledger, id)
    case Some(i) => Some(ledger[i])
    case None => None
  }

  /** No two rows share an action id. The partitioned table has no such key of its own. */
  ghost predicate UniqueIds(ledger: seq<Entry>) {
    forall i, j | 0 <= i < j < |ledger| :: ledger[i].id != ledger[j].id
  }

  lemma FindAt(ledger: seq<Entry>, i: nat)
    requires UniqueIds(ledger) && i < |ledger|
    ensures Find(ledger, ledger[i].id) == Some(i)
  {
    var r := Find(ledger, ledger[i].id);
    assert ledger[r.value].id == ledger[i].id;
  }

  function AppliedColumns(kind: Kind, amount: int): Columns {
    match kind
    case BetKind => Columns(amount, 0, 1, 0, 0, 0)
    case WinKind => Columns(0, amount, 0, 0, 0, 0)
    case RollbackKind => ZERO
  }

  function RemovedColumns(kind: Kind, amount: int): Columns {
    match kind
    case BetKind => Columns(-amount, 0, -1, 0, amount, 0)
    case WinKind => Columns(0, -amount, 0, 0, 0, amount)
    case RollbackKind => ZERO
  }

  function RolledBackColumns(kind: Kind, amount: int): Columns {
    match kind
    case BetKind => Columns(0, 0, 0, 0, amount, 0)
    case WinKind => Columns(0, 0, 0, 0, 0, amount)
    case RollbackKind => ZERO
  }

  const ONE_ROLLBACK := Columns(0, 0, 0, 1, 0, 0)

  /** What one ledger row is worth in a report recomputed from the ledger. */
  function Contribution(e: Entry): Columns {
    if e.kind == RollbackKind then
      if e.status == NoopAlreadyRolledBack then ZERO else ONE_ROLLBACK
    else
      var amount := if e.amount.Some? then e.amount.value else 0;
      if e.status == Applied && e.rolledBackBy.None? then AppliedColumns(e.kind, amount)
      else RolledBackColumns(e.kind, amount)
  }

  function BucketOf(e: Entry): Bucket {
    Bucket(Minute(e.createdAt), e.account)
  }

  /** The measure `m` over the buckets `f`, recomputed from the ledger. */
  ghost function LedgerSum(ledger: seq<Entry>, f: iset<Bucket>, m: Measure): int {
    if |ledger| == 0 then 0
    else
      var e := ledger[|ledger| - 1];
      LedgerSum(ledger[..|ledger| - 1], f, m) + (if BucketOf(e) in f then Contribution(e).At(m) else 0)
  }

  /** The deltas of the outbox rows whose bucket is in `f` and whose status is in `statuses`. */
  ghost function OutboxSum(rows: seq<OutboxRow>, f: iset<Bucket>, statuses: set<OutboxStatus>, m: Measure): int {
    if |rows| == 0 then 0
    else
      var row := rows[|rows| - 1];
      OutboxSum(rows[..|rows| - 1], f, statuses, m)
        + (if row.bucket in f && row.status in statuses then row.delta.At(m) else 0)
  }

  const ANY_STATUS: set<OutboxStatus> := {Pending, Processing, Processed}

  function Get(rollup: map<Bucket, Columns>, k: Bucket): Columns {
    if k in rollup then rollup[k] else ZERO
  }

  ghost function Part(rollup: map<Bucket, Columns>, k: Bucket, f: iset<Bucket>, m: Measure): int {
    if k in f then Get(rollup, k).At(m) else 0
  }

  /** The sum of the rollup rows whose bucket is in `f`. */
  ghost function RollupSum(rollup: map<Bucket, Columns>, f: iset<Bucket>, m: Measure): int
    decreases rollup.Keys
  {
    if rollup.Keys == {} then 0
    else
      var k :| k in rollup.Keys;
      Part(rollup, k, f, m) + RollupSum(rollup - {k}, f, m)
  }

  /** The sum of the balance deltas of all rows that belong to an account in `who`. */
  ghost function DeltaSum(ledger: seq<Entry>, who: iset<Account>): int {
    if |ledger| == 0 then 0
    else
      var e := ledger[|ledger| - 1];
      DeltaSum(ledger[..|ledger| - 1], who) + (if e.account in who then e.delta else 0)
  }

  lemma {:induction false} LedgerSumUpdate(ledger: seq<Entry>, k: nat, e: Entry, f: iset<Bucket>, m: Measure)
    requires k < |ledger| && BucketOf(e) == BucketOf(ledger[k])
    ensures LedgerSum(ledger[k := e], f, m) == LedgerSum(ledger, f, m)
         + if BucketOf(e) in f then Contribution(e).At(m) - Contribution(ledger[k]).At(m) else 0
  {
    var n := |ledger| - 1;
    if k == n {
      assert ledger[k := e][..n] == ledger[..n];
    } else {
      assert ledger[k := e][..n] == ledger[..n][k := e];
      LedgerSumUpdate(ledger[..n], k, e, f, m);
    }
  }

  lemma {:induction false} DeltaSumUpdate(ledger: seq<Entry>, k: nat, e: Entry, who: iset<Account>)
    requires k < |ledger| && e.account == ledger[k].account && e.delta == ledger[k].delta
    ensures DeltaSum(ledger[k := e], who) == DeltaSum(ledger, who)
  {
    var n := |ledger| - 1;
    if k == n {
      assert ledger[k := e][..n] == ledger[..n];
    } else {
      assert ledger[k := e][..n] == ledger[..n][k := e];
      DeltaSumUpdate(ledger[..n], k, e, who);
    }
  }

  lemma {:induction false} OutboxSumAppend(
      a: seq<OutboxRow>, b: seq<OutboxRow>, f: iset<Bucket>, s: set<OutboxStatus>, m: Measure)
    ensures OutboxSum(a + b, f, s, m) == OutboxSum(a, f, s, m) + OutboxSum(b, f, s, m)
  {
    if |b| == 0 {
      assert a + b == a;
    } else {
      var n := |b| - 1;
      assert (a + b)[..|a| + n] == a + b[..n];
      OutboxSumAppend(a, b[..n], f, s, m);
    }
  }

  lemma {:induction false} RollupSumRemove(rollup: map<Bucket, Columns>, k: Bucket, f: iset<Bucket>, m: Measure)
    requires k in rollup
    ensures RollupSum(rollup, f, m) == Part(rollup, k, f, m) + RollupSum(rollup - {k}, f, m)
    decreases rollup.Keys
  {
    var c :| c in rollup.Keys && RollupSum(rollup, f, m) == Part(rollup, c, f, m) + RollupSum(rollup - {c}, f, m);
    if c != k {
      RollupSumRemove(rollup - {c}, k, f, m);
      RollupSumRemove(rollup - {k}, c, f, m);
      var rest := rollup - {c} - {k};
      assert rest == rollup - {k} - {c};
      assert Part(rollup - {c}, k, f, m) == Part(rollup, k, f, m) && Part(rollup - {k}, c, f, m) == Part(rollup, c, f, m);
      assert RollupSum(rollup - {k}, f, m) == Part(rollup, c, f, m) + RollupSum(rest, f, m);
    }
  }

  /** Writing the row for `k`, whether it is there yet or not, moves only the sums that cover `k`. */
  lemma RollupSumPut(rollup: map<Bucket, Columns>, k: Bucket, v: Columns, f: iset<Bucket>, m: Measure)
    ensures RollupSum(rollup[k := v], f, m)
         == RollupSum(rollup, f, m) + if k in f then v.At(m) - Get(rollup, k).At(m) else 0
  {
    RollupSumRemove(rollup[k := v], k, f, m);
    assert rollup[k := v] - {k} == rollup - {k};
    if k in rollup {
      RollupSumRemove(rollup, k, f, m);
    } else {
      assert rollup - {k} == rollup;
    }
  }
}
