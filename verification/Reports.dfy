/** `src/reports/rtp.ts`: windowed aggregates over the rollup, and what they amount to. */
module Reports {
  import opened Schema
  import opened Rollup
  import opened Reconciliation
  import opened Runs

  /** A report query; an absent filter is `None`. */
  datatype Query = Query(from: Time, to: Time, currency: Option<nat>, user: Option<nat>)

  predicate Matches(q: Query, a: Account) {
    (q.currency.Some? ==> a.currency == q.currency.value) && (q.user.Some? ==> a.user == q.user.value)
  }

  predicate InWindow(q: Query, k: Bucket) {
    q.from <= k.minute < q.to && Matches(q, k.account)
  }

  ghost function Window(q: Query): iset<Bucket> {
    iset k: Bucket | InWindow(q, k)
  }

  ghost function Group(q: Query, a: Account): iset<Bucket> {
    iset k: Bucket | InWindow(q, k) && k.account == a
  }

  /** The smallest minute boundary at or after `t`. */
  function NextMinute(t: Time): (m: Time)
    ensures t <= m < t + 60_000_000 && m % 60_000_000 == 0
  {
    var m := Minute(t);
    if m == t then t else m + MINUTE
  }

  /** The report recomputed from the ledger: every row that passes the filters and whose `created_at` lies in
      `[from, to)`. */
  ghost function RecomputedSum(ledger: seq<Entry>, q: Query, m: Measure): int {
    if |ledger| == 0 then 0
    else
      var e := ledger[|ledger| - 1];
      RecomputedSum(ledger[..|ledger| - 1], q, m)
        + if q.from <= e.createdAt < q.to && (q.currency.None? || e.account.currency == q.currency.value)
             && (q.user.None? || e.account.user == q.user.value)
          then Contribution(e).At(m) else 0
  }

  /** Any window is, to the minute rollup, the window between the next minute boundaries. */
  lemma MinuteBoundaries(t: Time, from: Time)
    ensures Minute(t) >= from <==> t >= NextMinute(from)
  {
    var q := t / MINUTE;
    assert Minute(t) == q * MINUTE;
    var p := NextMinute(from) / MINUTE;
    assert NextMinute(from) == p * MINUTE;
  }

  lemma {:induction false} RecomputedIsLedgerSum(ledger: seq<Entry>, q: Query, m: Measure)
    ensures LedgerSum(ledger, Window(q), m)
         == RecomputedSum(ledger, q.(from := NextMinute(q.from), to := NextMinute(q.to)), m)
  {
    if |ledger| > 0 {
      var n := |ledger| - 1;
      RecomputedIsLedgerSum(ledger[..n], q, m);
      MinuteBoundaries(ledger[n].createdAt, q.from);
      MinuteBoundaries(ledger[n].createdAt, q.to);
    }
  }

  lemma {:induction false} NothingPending(rows: seq<OutboxRow>, f: iset<Bucket>, m: Measure)
    requires forall i | 0 <= i < |rows| :: rows[i].status != Pending
    ensures OutboxSum(rows, f, {Pending}, m) == 0
  {
    if |rows| > 0 {
      NothingPending(rows[..|rows| - 1], f, m);
    }
  }

  lemma PendingRowsHaveIds(rows: seq<OutboxRow>)
    ensures forall i | 0 <= i < |rows| && rows[i].status == Pending :: rows[i].id in PendingIds(rows)
  {
    forall i | 0 <= i < |rows| && rows[i].status == Pending
      ensures rows[i].id in PendingIds(rows)
    {
      assert rows[i] in rows;
    }
  }

  /** End-to-end correctness: once the outbox is drained, the rollup sum of any window is the ledger's
      between the next minute boundaries; for a minute-aligned window, the ledger's in that window. */
  lemma DrainedReportIsExact(db: Tables, q: Query, m: Measure)
    requires Balanced(db) && PendingIds(db.outbox) == {}
    ensures RollupSum(db.rollup, Window(q), m)
         == RecomputedSum(db.ledger, q.(from := NextMinute(q.from), to := NextMinute(q.to)), m)
    ensures q.from % 60_000_000 == 0 && q.to % 60_000_000 == 0 ==>
      RollupSum(db.rollup, Window(q), m) == RecomputedSum(db.ledger, q, m)
  {
    PendingRowsHaveIds(db.outbox);
    NothingPending(db.outbox, Window(q), m);
    RollupPlusUndrained(db, Window(q), m);
    RecomputedIsLedgerSum(db.ledger, q, m);
    assert q.from % 60_000_000 == 0 ==> NextMinute(q.from) == q.from;
    assert q.to % 60_000_000 == 0 ==> NextMinute(q.to) == q.to;
  }

  lemma {:induction false} RollupSumUnion(rollup: map<Bucket, Columns>, f: iset<Bucket>, g: iset<Bucket>, m: Measure)
    requires f !! g
    ensures RollupSum(rollup, f + g, m) == RollupSum(rollup, f, m) + RollupSum(rollup, g, m)
    decreases rollup.Keys
  {
    if rollup.Keys != {} {
      var k :| k in rollup.Keys;
      RollupSumRemove(rollup, k, f, m);
      RollupSumRemove(rollup, k, g, m);
      RollupSumRemove(rollup, k, f + g, m);
      RollupSumUnion(rollup - {k}, f, g, m);
    }
  }

  /** Adjacent windows add. */
  lemma WindowsAdd(rollup: map<Bucket, Columns>, q: Query, mid: Time, m: Measure)
    requires q.from <= mid <= q.to
    ensures RollupSum(rollup, Window(q), m)
         == RollupSum(rollup, Window(q.(to := mid)), m) + RollupSum(rollup, Window(q.(from := mid)), m)
  {
    RollupSumUnion(rollup, Window(q.(to := mid)), Window(q.(from := mid)), m);
    assert Window(q) == Window(q.(to := mid)) + Window(q.(from := mid));
  }

  /** `ORDER BY user_id, currency`. */
  predicate Before(a: Account, b: Account) {
    a.user < b.user || (a.user == b.user && a.currency < b.currency)
  }

  ghost predicate IsFirst(who: set<Account>, a: Account) {
    a in who && forall b | b in who && b != a :: Before(a, b)
  }

  lemma FirstExists(who: set<Account>)
    requires who != {}
    ensures exists a :: IsFirst(who, a)
  {
    var c :| c in who;
    var rest := who - {c};
    assert who == rest + {c};
    if rest == {} {
      assert IsFirst(who, c);
    } else {
      FirstExists(rest);
      var a :| IsFirst(rest, a);
      assert IsFirst(who, if Before(a, c) then a else c);
    }
  }

  function First(who: set<Account>): (a: Account)
    requires who != {}
    ensures IsFirst(who, a)
  {
    FirstExists(who);
    var a :| a in who && forall b | b in who && b != a :: Before(a, b);
    a
  }

  function Sorted(who: set<Account>): seq<Account> {
    if who == {} then [] else [First(who)] + Sorted(who - {First(who)})
  }

  /** The accounts with a rollup row in the window, in report order. */
  function ReportAccounts(rollup: map<Bucket, Columns>, q: Query): seq<Account> {
    Sorted(set k | k in rollup && InWindow(q, k) :: k.account)
  }

  lemma {:induction false} SortedIsOrdered(who: set<Account>)
    ensures forall a :: a in Sorted(who) <==> a in who
    ensures forall i, j | 0 <= i < j < |Sorted(who)| :: Before(Sorted(who)[i], Sorted(who)[j])
  {
    if who != {} {
      SortedIsOrdered(who - {First(who)});
    }
  }

  datatype Ratio = Ratio(won: int, staked: int)

  /** A row of a report; `account` is `None` in the casino's, which is about all of them. */
  datatype RtpRow = RtpRow(account: Option<Account>, columns: Columns, rtp: Option<Ratio>)

  ghost function SumColumns(rollup: map<Bucket, Columns>, f: iset<Bucket>): (r: Columns)
    ensures forall m: Measure :: r.At(m) == RollupSum(rollup, f, m)
  {
    Columns(RollupSum(rollup, f, TotalBet), RollupSum(rollup, f, TotalWin), RollupSum(rollup, f, Rounds),
            RollupSum(rollup, f, RollbackCount), RollupSum(rollup, f, RolledBackBet), RollupSum(rollup, f, RolledBackWin))
  }

  /** The ratio is null when nothing was staked. */
  function RowFor(account: Option<Account>, c: Columns): RtpRow {
    RtpRow(account, c, if c.totalBet == 0 then None else Some(Ratio(c.totalWin, c.totalBet)))
  }

  /** All rows of the user report, before LIMIT and OFFSET. */
  ghost function UserRows(rollup: map<Bucket, Columns>, q: Query): (r: seq<RtpRow>)
    ensures |r| == |ReportAccounts(rollup, q)|
  {
    var who := ReportAccounts(rollup, q);
    seq(|who|, i requires 0 <= i < |who| => RowFor(Some(who[i]), SumColumns(rollup, Group(q, who[i]))))
  }

  /** `getUserRtpReport`. */
  ghost function UserReport(rollup: map<Bucket, Columns>, q: Query, limit: nat, offset: nat): seq<RtpRow> {
    Page(UserRows(rollup, q), limit, offset)
  }

  /** `getCasinoRtpReport`, which has no user filter. */
  ghost function CasinoReport(rollup: map<Bucket, Columns>, q: Query): RtpRow {
    RowFor(None, SumColumns(rollup, Window(q.(user := None))))
  }

  /** `LIMIT limit OFFSET offset`. */
  function Page<T>(items: seq<T>, limit: nat, offset: nat): (r: seq<T>)
    ensures |r| <= limit && (|r| < limit ==> offset + |r| == |items| || (r == [] && |items| < offset))
    ensures forall i | 0 <= i < |r| :: offset + i < |items| && r[i] == items[offset + i]
  {
    var start := if offset <= |items| then offset else |items|;
    var end := if start + limit <= |items| then start + limit else |items|;
    items[start..end]
  }

  /** The first `count` pages of the user report, one after the other. */
  ghost function Pages(rollup: map<Bucket, Columns>, q: Query, limit: nat, count: nat): seq<RtpRow> {
    if count == 0 then [] else Pages(rollup, q, limit, count - 1) + UserReport(rollup, q, limit, (count - 1) * limit)
  }

  /** Consecutive pages reproduce the ordered user list, without gaps or repeats. */
  lemma {:induction false} PagesReproduce(rollup: map<Bucket, Columns>, q: Query, limit: nat, count: nat)
    ensures var rows := UserRows(rollup, q);
      Pages(rollup, q, limit, count) == if count * limit <= |rows| then rows[..count * limit] else rows
  {
    if count > 0 {
      PagesReproduce(rollup, q, limit, count - 1);
      NextPage(UserRows(rollup, q), limit, count);
    }
  }

  function Upto<T>(items: seq<T>, n: nat): seq<T> {
    if n <= |items| then items[..n] else items
  }

  lemma NextPage<T>(items: seq<T>, limit: nat, count: nat)
    requires count > 0
    ensures Upto(items, (count - 1) * limit) + Page(items, limit, (count - 1) * limit) == Upto(items, count * limit)
  {
    PageAfter(items, limit, (count - 1) * limit);
    assert count * limit == (count - 1) * limit + limit;
  }

  lemma PageAfter<T>(items: seq<T>, limit: nat, n: nat)
    ensures Upto(items, n) + Page(items, limit, n) == Upto(items, n + limit)
  {
  }

  /** The user list has one row for each account that passes the filters and has activity in the window, by
      user and then by currency. */
  lemma UserRowsAreOrdered(rollup: map<Bucket, Columns>, q: Query)
    ensures var rows := UserRows(rollup, q);
      && (forall i, j | 0 <= i < j < |rows| ::
            var a, b := rows[i].account.value, rows[j].account.value;
            a.user < b.user || (a.user == b.user && a.currency < b.currency))
      && (forall a :: (exists i | 0 <= i < |rows| :: rows[i].account == Some(a))
                 <==> (q.currency.None? || a.currency == q.currency.value) && (q.user.None? || a.user == q.user.value)
                      && exists k | k in rollup && q.from <= k.minute < q.to :: k.account == a)
  {
    var who := set k | k in rollup && InWindow(q, k) :: k.account;
    var rows, items := UserRows(rollup, q), ReportAccounts(rollup, q);
    SortedIsOrdered(who);
    forall a
      ensures (exists i | 0 <= i < |rows| :: rows[i].account == Some(a)) <==> a in who
    {
      RowOfAccount(rows, items, a);
    }
    forall a
      ensures a in who <==> (q.currency.None? || a.currency == q.currency.value) && (q.user.None? || a.user == q.user.value)
                            && exists k | k in rollup && q.from <= k.minute < q.to :: k.account == a
    {
      AccountInWindow(rollup, q, a);
    }
  }

  lemma AccountInWindow(rollup: map<Bucket, Columns>, q: Query, a: Account)
    ensures (exists k | k in rollup && InWindow(q, k) :: k.account == a)
       <==> (q.currency.None? || a.currency == q.currency.value) && (q.user.None? || a.user == q.user.value)
            && exists k | k in rollup && q.from <= k.minute < q.to :: k.account == a
  {
    if Matches(q, a) && exists k | k in rollup && q.from <= k.minute < q.to :: k.account == a {
      var k :| k in rollup && q.from <= k.minute < q.to && k.account == a;
      assert InWindow(q, k);
    }
  }

  lemma RowOfAccount(rows: seq<RtpRow>, items: seq<Account>, a: Account)
    requires |rows| == |items| && forall i | 0 <= i < |items| :: rows[i].account == Some(items[i])
    ensures (exists i | 0 <= i < |rows| :: rows[i].account == Some(a)) <==> a in items
  {
    if a in items {
      var i :| 0 <= i < |items| && items[i] == a;
      assert rows[i].account == Some(a);
    }
  }

  /** One column of the user report added up over its rows. */
  ghost function RowsSum(rows: seq<RtpRow>, m: Measure): int {
    if |rows| == 0 then 0 else RowsSum(rows[..|rows| - 1], m) + rows[|rows| - 1].columns.At(m)
  }

  ghost function Covered(q: Query, items: seq<Account>): iset<Bucket> {
    iset k: Bucket | InWindow(q, k) && k.account in items
  }

  lemma {:induction false} RowsCover(rollup: map<Bucket, Columns>, q: Query, items: seq<Account>, rows: seq<RtpRow>, m: Measure)
    requires forall i, j | 0 <= i < j < |items| :: items[i] != items[j]
    requires |rows| == |items| && forall i | 0 <= i < |items| :: rows[i].columns == SumColumns(rollup, Group(q, items[i]))
    ensures RowsSum(rows, m) == RollupSum(rollup, Covered(q, items), m)
  {
    if |items| == 0 {
      OutsideIsZero(rollup, Covered(q, items), m);
    } else {
      var n := |items| - 1;
      RowsCover(rollup, q, items[..n], rows[..n], m);
      RollupSumUnion(rollup, Covered(q, items[..n]), Group(q, items[n]), m);
      assert items == items[..n] + [items[n]];
      assert Covered(q, items) == Covered(q, items[..n]) + Group(q, items[n]);
    }
  }

  lemma {:induction false} OutsideIsZero(rollup: map<Bucket, Columns>, f: iset<Bucket>, m: Measure)
    requires forall k | k in rollup :: k !in f
    ensures RollupSum(rollup, f, m) == 0
    decreases rollup.Keys
  {
    if rollup.Keys != {} {
      var k :| k in rollup.Keys;
      RollupSumRemove(rollup, k, f, m);
      OutsideIsZero(rollup - {k}, f, m);
    }
  }

  /** Every column of the casino report is the sum over all rows of the user report with the same currency
      filter; a user filter plays no part. */
  lemma CasinoIsSumOfUsers(rollup: map<Bucket, Columns>, q: Query, m: Measure)
    ensures CasinoReport(rollup, q).columns.At(m) == RowsSum(UserRows(rollup, q.(user := None)), m)
  {
    WindowIsSumOfUsers(rollup, q.(user := None), m);
  }

  lemma WindowIsSumOfUsers(rollup: map<Bucket, Columns>, q: Query, m: Measure)
    ensures RollupSum(rollup, Window(q), m) == RowsSum(UserRows(rollup, q), m)
  {
    var who := set k | k in rollup && InWindow(q, k) :: k.account;
    var items := ReportAccounts(rollup, q);
    SortedIsOrdered(who);
    RowsCover(rollup, q, items, UserRows(rollup, q), m);
    var outside := Window(q) - Covered(q, items);
    RollupSumUnion(rollup, Covered(q, items), outside, m);
    assert Window(q) == Covered(q, items) + outside;
    OutsideIsZero(rollup, outside, m);
  }

  /** End to end: in every lawful state with a drained outbox, which `RunKeepsGood` makes every drained reachable
      one, the casino report of a minute-aligned window is the one recomputed from the ledger rows created in
      that window, ratio included; a user filter in the query is ignored. */
  lemma CasinoReportIsExact(db: Tables, q: Query)
    requires Good(db) && PendingIds(db.outbox) == {}
    requires q.from % 60_000_000 == 0 && q.to % 60_000_000 == 0
    ensures var row, all := CasinoReport(db.rollup, q), q.(user := None);
      && row.account == None
      && (forall m: Measure :: row.columns.At(m) == RecomputedSum(db.ledger, all, m))
      && row.rtp == if RecomputedSum(db.ledger, all, TotalBet) == 0 then None
                    else Some(Ratio(RecomputedSum(db.ledger, all, TotalWin), RecomputedSum(db.ledger, all, TotalBet)))
  {
    forall m: Measure
      ensures CasinoReport(db.rollup, q).columns.At(m) == RecomputedSum(db.ledger, q.(user := None), m)
    {
      DrainedReportIsExact(db, q.(user := None), m);
    }
    assert CasinoReport(db.rollup, q).columns.At(TotalBet) == CasinoReport(db.rollup, q).columns.totalBet;
    assert CasinoReport(db.rollup, q).columns.At(TotalWin) == CasinoReport(db.rollup, q).columns.totalWin;
  }

  /** The query for one account's part of `q`. */
  function Own(q: Query, a: Account): Query {
    q.(currency := Some(a.currency), user := Some(a.user))
  }

  // A row's group is the window of the same query with its account as filters.
  lemma RowIsWindow(rollup: map<Bucket, Columns>, q: Query, i: nat)
    requires i < |UserRows(rollup, q)|
    ensures var a := ReportAccounts(rollup, q)[i]; var row := UserRows(rollup, q)[i];
      row.account == Some(a) && Matches(q, a) && forall m: Measure :: row.columns.At(m) == RollupSum(rollup, Window(Own(q, a)), m)
  {
    var a := ReportAccounts(rollup, q)[i];
    SortedIsOrdered(set k | k in rollup && InWindow(q, k) :: k.account);
    assert a in ReportAccounts(rollup, q);
    assert Group(q, a) == Window(Own(q, a));
  }
}
