/** Rollbacks of rollbacks: applied reversals form chains, and a chain's money cancels by parity. */
module Chains {
  import opened Schema
  import opened LedgerLaws

  predicate Reverses(e: Entry) {
    e.kind == RollbackKind && e.status == Applied
  }

  /** How many applied reversals follow row `i`: its rollback, the rollback of that one, and so on. */
  ghost function Reversals(ledger: seq<Entry>, i: nat): nat
    requires Linked(ledger) && i < |ledger|
    decreases |ledger| - i
  {
    if ledger[i].rolledBackBy.None? then 0
    else
      assert Reversed(ledger, i);
      1 + Reversals(ledger, Find(ledger, ledger[i].rolledBackBy.value).value)
  }

  /** The row an applied rollback reversed; any other row stands for itself. */
  ghost function Previous(ledger: seq<Entry>, j: nat): (i: nat)
    requires Linked(ledger) && AllWellShaped(ledger) && j < |ledger|
    ensures !Reverses(ledger[j]) ==> i == j
    ensures Reverses(ledger[j]) ==>
      i < j && ledger[i].rolledBackBy == Some(ledger[j].id) && ledger[j].original == Some(ledger[i].id)
  {
    assert WellShaped(ledger[j]) && Pointed(ledger, j);
    if Reverses(ledger[j]) then Find(ledger, ledger[j].original.value).value else j
  }

  /** The first row of the chain that row `j` is on, and the distance to it. */
  ghost function Root(ledger: seq<Entry>, j: nat): (r: nat)
    requires Linked(ledger) && AllWellShaped(ledger) && j < |ledger|
    ensures r <= j && !Reverses(ledger[r])
  {
    if Reverses(ledger[j]) then Root(ledger, Previous(ledger, j)) else j
  }

  ghost function Depth(ledger: seq<Entry>, j: nat): nat
    requires Linked(ledger) && AllWellShaped(ledger) && j < |ledger|
  {
    if Reverses(ledger[j]) then 1 + Depth(ledger, Previous(ledger, j)) else 0
  }

  /** How many of the first `n` rows are applied rollbacks on the chain that starts at `r`. */
  ghost function Length(ledger: seq<Entry>, n: nat, r: nat): nat
    requires Linked(ledger) && AllWellShaped(ledger) && n <= |ledger|
  {
    if n == 0 then 0
    else Length(ledger, n - 1, r) + if Reverses(ledger[n - 1]) && Root(ledger, n - 1) == r then 1 else 0
  }

  ghost predicate Chained(ledger: seq<Entry>) {
    UniqueIds(ledger) && Linked(ledger) && AllWellShaped(ledger)
  }

  lemma {:induction false} NoBranches(ledger: seq<Entry>, j: nat, k: nat)
    requires Chained(ledger) && j < |ledger| && k < |ledger|
    requires Root(ledger, j) == Root(ledger, k) && Depth(ledger, j) == Depth(ledger, k)
    ensures j == k
  {
    if Reverses(ledger[j]) {
      NoBranches(ledger, Previous(ledger, j), Previous(ledger, k));
      FindAt(ledger, j);
      FindAt(ledger, k);
    }
  }

  /** The row was reversed by none of the first `n` rows. */
  ghost predicate Tip(ledger: seq<Entry>, n: nat, j: nat)
    requires Chained(ledger) && j < n <= |ledger|
  {
    forall k | j < k < n && Reverses(ledger[k]) :: Previous(ledger, k) != j
  }

  lemma {:induction false} LengthOfLaterRoot(ledger: seq<Entry>, n: nat, r: nat)
    requires Chained(ledger) && n <= |ledger| && n <= r
    ensures Length(ledger, n, r) == 0
  {
    if n > 0 {
      LengthOfLaterRoot(ledger, n - 1, r);
    }
  }

  /** Chains do not branch: the unreversed row of a chain is as deep as the chain is long. */
  lemma {:induction false} TipIsDeepest(ledger: seq<Entry>, n: nat, j: nat)
    requires Chained(ledger) && j < n <= |ledger| && ledger[j].status == Applied && Tip(ledger, n, j)
    ensures Depth(ledger, j) == Length(ledger, n, Root(ledger, j))
    decreases n
  {
    var last := n - 1;
    if j < last {
      assert Tip(ledger, last, j);
      TipIsDeepest(ledger, last, j);
      if Reverses(ledger[last]) && Root(ledger, last) == Root(ledger, j) {
        var i := Previous(ledger, last);
        OnlyReversal(ledger, i, last);
        TipIsDeepest(ledger, last, i);
        NoBranches(ledger, i, j);
      }
    } else if Reverses(ledger[j]) {
      var i := Previous(ledger, j);
      OnlyReversal(ledger, i, j);
      TipIsDeepest(ledger, j, i);
    } else {
      LengthOfLaterRoot(ledger, j, j);
    }
  }

  lemma OnlyReversal(ledger: seq<Entry>, i: nat, j: nat)
    requires Chained(ledger) && i < j < |ledger| && Reverses(ledger[j]) && Previous(ledger, j) == i
    ensures Tip(ledger, j, i) && ledger[i].status == Applied && ledger[j].delta == -ledger[i].delta
  {
    FindAt(ledger, j);
    assert Reversed(ledger, i);
    forall k | i < k < j && Reverses(ledger[k])
      ensures Previous(ledger, k) != i
    {
      FindAt(ledger, k);
    }
  }

  lemma {:induction false} SignByDepth(ledger: seq<Entry>, j: nat)
    requires Chained(ledger) && j < |ledger|
    ensures ledger[j].delta == if Depth(ledger, j) % 2 == 0 then ledger[Root(ledger, j)].delta else -ledger[Root(ledger, j)].delta
  {
    if Reverses(ledger[j]) {
      OnlyReversal(ledger, Previous(ledger, j), j);
      SignByDepth(ledger, Previous(ledger, j));
    }
  }

  /** The chain ahead of a row and the chain behind it make up its whole chain. */
  lemma {:induction false} ReversalsAhead(ledger: seq<Entry>, j: nat)
    requires Chained(ledger) && j < |ledger| && ledger[j].status == Applied
    ensures Depth(ledger, j) + Reversals(ledger, j) == Length(ledger, |ledger|, Root(ledger, j))
    decreases |ledger| - j
  {
    if ledger[j].rolledBackBy.Some? {
      assert Reversed(ledger, j);
      var k := Find(ledger, ledger[j].rolledBackBy.value).value;
      FindAt(ledger, j);
      assert Previous(ledger, k) == j;
      ReversalsAhead(ledger, k);
    } else {
      TipIsDeepest(ledger, |ledger|, j);
    }
  }

  /** The signed amount of the bet or win in row `i`, if its chain within the first `m` rows has even length. */
  ghost function EvenTerm(ledger: seq<Entry>, i: nat, m: nat, who: iset<Account>): int
    requires Linked(ledger) && AllWellShaped(ledger) && i < |ledger| && m <= |ledger|
  {
    if ledger[i].kind != RollbackKind && ledger[i].account in who && Length(ledger, m, i) % 2 == 0 then ledger[i].delta else 0
  }

  ghost function EvenSum(ledger: seq<Entry>, n: nat, m: nat, who: iset<Account>): int
    requires Linked(ledger) && AllWellShaped(ledger) && n <= |ledger| && m <= |ledger|
  {
    if n == 0 then 0
    else
      EvenSum(ledger, n - 1, m, who) + EvenTerm(ledger, n - 1, m, who)
  }

  /** A set of accounts that no applied rollback reaches into or out of. */
  ghost predicate Closed(ledger: seq<Entry>, who: iset<Account>) {
    forall i, j | 0 <= i < j < |ledger| && Reverses(ledger[j]) && ledger[j].original == Some(ledger[i].id) ::
      ledger[i].account in who <==> ledger[j].account in who
  }

  lemma {:induction false} ClosedRoot(ledger: seq<Entry>, j: nat, who: iset<Account>)
    requires Chained(ledger) && Closed(ledger, who) && j < |ledger|
    ensures ledger[Root(ledger, j)].account in who <==> ledger[j].account in who
  {
    if Reverses(ledger[j]) {
      ClosedRoot(ledger, Previous(ledger, j), who);
    }
  }

  // What row `m` does to the sum: it lengthens the chain it is on, and no other.
  ghost function Flip(ledger: seq<Entry>, m: nat, who: iset<Account>): int
    requires Linked(ledger) && AllWellShaped(ledger) && m < |ledger|
  {
    var r := Root(ledger, m);
    if !Reverses(ledger[m]) || ledger[r].kind == RollbackKind || ledger[r].account !in who then 0
    else if Length(ledger, m, r) % 2 == 0 then -ledger[r].delta
    else ledger[r].delta
  }

  lemma EvenTermGrows(ledger: seq<Entry>, i: nat, m: nat, who: iset<Account>)
    requires Chained(ledger) && i < m < |ledger|
    ensures EvenTerm(ledger, i, m + 1, who) == EvenTerm(ledger, i, m, who)
      + if Root(ledger, m) == i then Flip(ledger, m, who) else 0
  {
    var before, after := Length(ledger, m, i), Length(ledger, m + 1, i);
    assert after == before + if Reverses(ledger[m]) && Root(ledger, m) == i then 1 else 0;
  }

  lemma {:induction false} EvenSumGrows(ledger: seq<Entry>, n: nat, m: nat, who: iset<Account>)
    requires Chained(ledger) && n <= m < |ledger|
    ensures EvenSum(ledger, n, m + 1, who) == EvenSum(ledger, n, m, who)
      + if Root(ledger, m) < n then Flip(ledger, m, who) else 0
  {
    if n > 0 {
      EvenSumGrows(ledger, n - 1, m, who);
      EvenTermGrows(ledger, n - 1, m, who);
    }
  }

  lemma {:induction false} PrefixCancels(ledger: seq<Entry>, n: nat, who: iset<Account>)
    requires Chained(ledger) && Closed(ledger, who) && n <= |ledger|
    ensures DeltaSum(ledger[..n], who) == EvenSum(ledger, n, n, who)
  {
    if n > 0 {
      var m := n - 1;
      PrefixCancels(ledger, m, who);
      assert ledger[..n][..m] == ledger[..m];
      EvenSumGrows(ledger, m, m, who);
      LengthOfLaterRoot(ledger, m, m);
      assert WellShaped(ledger[m]);
      if Reverses(ledger[m]) {
        FlipIsDelta(ledger, m, who);
      }
    }
  }

  lemma FlipIsDelta(ledger: seq<Entry>, m: nat, who: iset<Account>)
    requires Chained(ledger) && Closed(ledger, who) && m < |ledger| && Reverses(ledger[m])
    ensures Flip(ledger, m, who) == (if ledger[m].account in who then ledger[m].delta else 0) && Root(ledger, m) < m
  {
    var i := Previous(ledger, m);
    OnlyReversal(ledger, i, m);
    TipIsDeepest(ledger, m, i);
    SignByDepth(ledger, i);
    ClosedRoot(ledger, m, who);
    AppliedRoot(ledger, m);
  }

  lemma {:induction false} AppliedRoot(ledger: seq<Entry>, j: nat)
    requires Chained(ledger) && j < |ledger| && ledger[j].status == Applied
    ensures ledger[Root(ledger, j)].kind != RollbackKind && ledger[Root(ledger, j)].status == Applied
  {
    if Reverses(ledger[j]) {
      OnlyReversal(ledger, Previous(ledger, j), j);
      AppliedRoot(ledger, Previous(ledger, j));
    }
  }

  /** The signed amounts of the bets and wins that were reversed an even number of times. */
  ghost function SurvivingSum(ledger: seq<Entry>, n: nat, who: iset<Account>): int
    requires Linked(ledger) && n <= |ledger|
  {
    if n == 0 then 0
    else
      SurvivingSum(ledger, n - 1, who)
        + if ledger[n - 1].kind != RollbackKind && ledger[n - 1].account in who && Reversals(ledger, n - 1) % 2 == 0
          then ledger[n - 1].delta else 0
  }

  lemma {:induction false} SurvivingIsEven(ledger: seq<Entry>, n: nat, who: iset<Account>)
    requires Chained(ledger) && n <= |ledger|
    ensures SurvivingSum(ledger, n, who) == EvenSum(ledger, n, |ledger|, who)
  {
    if n > 0 {
      SurvivingIsEven(ledger, n - 1, who);
      assert WellShaped(ledger[n - 1]);
      if ledger[n - 1].status == Applied {
        ReversalsAhead(ledger, n - 1);
      }
    }
  }

  /** Rollback chains cancel by parity: for any accounts no applied rollback crosses, all balance
      deltas together are the signed amounts of the bets and wins reversed an even number of times. */
  lemma ChainsCancel(ledger: seq<Entry>, who: iset<Account>)
    requires Chained(ledger) && Closed(ledger, who)
    ensures DeltaSum(ledger, who) == SurvivingSum(ledger, |ledger|, who)
  {
    PrefixCancels(ledger, |ledger|, who);
    assert ledger[..|ledger|] == ledger;
    SurvivingIsEven(ledger, |ledger|, who);
  }
}
