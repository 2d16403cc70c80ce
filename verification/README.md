# A verified model of the account-striped ledger

A betting wallet keeps one balance per `(user_id, currency)`. Requests carry bets, wins and rollbacks;
every action id is claimed once, every action leaves one ledger row, and reporting deltas go through an
outbox into a per-minute rollup. Rollbacks may come before their original, come twice, or name another
rollback. This project states what that machine keeps and proves it, for the TypeScript service, for the
Rust service over wrapping `i64`, for the drain worker, and for requests of both services interleaved with
drain workers.

`dafny verify dfyconfig.toml` checks everything.

## Main results

1. Interleaved requests and drain workers, with aborts and crashes anywhere, commit what a serial run of the
   committed ones would (`Concurrent.Serializable`), and every serial run in which each request is served is what
   some interleaving commits (`Reached.HistoriesAreServableRuns`). Aborts and crashes leave nothing behind and can
   be retried (`Endings.AbortEnds`, `Endings.DropEnds`). Without the account lock updates are lost
   (`Races.WithoutLockUpdatesAreLost`); accounts that name the same id at the same time break tombstones
   (`Races.SharedIdsBreakTombstones`).
2. A request either has its whole effect or none, answers with the balance it left, is refused iff one of its
   actions overdraws, and violates no key, UNIQUE, foreign key or CHECK of the schema
   (`Processor.ProcessAggregatorRequest`); the Rust service never persists a wrapped balance
   (`RustProcessor.ProcessRequest64`, `RustRuns.RunIsExact`) and fails for two reasons only
   (`RustProcessor.WhyItFails`).
3. In every reachable state the tables agree with each other and every ledger row is what a plain scan of the
   rows before it makes of it (`Runs.RunKeepsGood`, `NaiveLedger.RunExplainsItself`).
4. Rollback chains cancel by parity (`ClosedForm.AllMoneyCancels`). The order of arrival does not matter to an
   account that rolls back only its own bets and wins (`ClosedForm.ArrivalOrderIsIrrelevant`); it does where a
   rollback is rolled back (`Agreement.OrderMattersToChains`).
5. Rollup plus undrained outbox is the report recomputed from the ledger, each row is drained exactly once
   (`Reconciliation.RollupPlusUndrained`, `Concurrent.ExactlyOnce`). With one worker no rollup column is ever
   negative (`SingleWorker.RollupNeverNegative`), with two one can be (`TwoWorkers.TwoWorkersGoNegative`).
6. Once drained, both reports are those recomputed from the ledger, listed accounts included
   (`Reports.CasinoReportIsExact`, `Listing.ReachedUserReportIsExact`).

## How it is put together

| file | what it holds |
|---|---|
| `Schema.dfy`, `Wallet.dfy` | the tables as values; what one action does to them (`Judge`, `Play`), one request (`Serve`) |
| `LedgerLaws.dfy` | the invariant across `accounts`, `action_registry`, `actions` and `rollback_intents` |
| `Rollup.dfy`, `Reconciliation.dfy` | draining a batch; outbox and rollup against the ledger |
| `Runs.dfy`, `History.dfy` | runs of requests and batches: what every run keeps, conserves and remembers |
| `NaiveLedger.dfy` | an independent reading of the ledger: every verdict from a scan of earlier rows |
| `Chains.dfy`, `ClosedForm.dfy`, `Agreement.dfy` | rollbacks of rollbacks, order independence, money against reports |
| `Services.dfy`, `Mixed.dfy` | what each service makes of a timestamp it reads; both services on one database |
| `Database.dfy`, `Processor.dfy`, `RtpOutbox.dfy`, `RustProcessor.dfy` | the imperative code over a database object, proved against the above |
| `RustRuns.dfy` | runs of the Rust service as runs of the exact machine |
| `Reports.dfy`, `Listing.dfy` | the two RTP reports, end to end |
| `Slices.dfy`, `Transactions.dfy` | what a request can see and change; requests in flight |
| `Paths.dfy`, `Concurrent.dfy` | paths of a transition system; requests and drain workers interleaved |
| `Endings.dfy`, `Reached.dfy`, `Races.dfy` | what ends a request or worker and what it releases; which runs interleavings reach; what goes wrong without what keeps requests apart |
| `SingleWorker.dfy`, `TwoWorkers.dfy` | signs of the rollup columns with one drain worker, and with two |

The imperative methods follow the code statement by statement on a mutable `Database`, one method per SQL
statement, and are proved equal to `Serve` and `DrainBatch`. `Serve` itself is not taken on trust:
its verdicts are those of a plain ledger scan, its money sums to balances, its outbox rows to a report
recomputed from the ledger, and its interleavings to serial runs.

The simplest statements have no row of their own below: `Store.Database` opens an account
(`src/processor.ts:72-79`), looks for an intent (`src/processor.ts:152-161`), begins and rolls back
(`src/db/transaction.ts:6-10`), upserts and marks claimed rows (`src/reports/rtp-outbox.ts:81-124`) and
resets stale ones (`src/reports/rtp-outbox.ts:41-53`).

## What is assumed of the surroundings

- A claim draws a `tx_id` and outbox ids that nothing else uses, and reads an arbitrary clock (`Stamp`).
  Clock values need not increase. The TypeScript clock has whole milliseconds.
- Request amounts are positive in the TypeScript service (`src/validation.ts:4`). The Rust service checks
  them inside the action, after the claim, and so does its model: it answers a known id whatever its amount.
- Between transactions the tables satisfy `Good`. A database with seeded balances and nothing else does,
  and every event keeps it.
- Interleaved requests: those in flight for different accounts name different ids (`Concurrent.NamesApart`).
  An id may be used by several accounts one after the other. `Races.SharedIdsBreakTombstones` shows what two
  accounts that race on one id can do; a claim that blocks on the other's and finds no row to return is not
  modelled. A request's stamps are drawn when it takes its account lock.
- The single-worker result needs more of ids and sequence: an action id and its rollbacks belong to one account
  (`SingleWorker.Owner`), and what a transaction draws while it holds the account lock rises, and lies above what
  was drawn for that account before (`SingleWorker.Draws`). Draws for other accounts may fall anywhere in between
  and become visible at any time.
- Interleaved requests may come from either service or from both, as long as every service of the database
  reads the times the others write. That fails, and is excluded, where TypeScript reads microseconds that Rust
  wrote; `Mixed` has what happens then.
- Row locks are exclusivity: one transaction per account, disjoint outbox claims, one writer per rollup row.

## Where the code says more than its documentation

- A rollback whose own id was tombstoned still applies; only bets and wins look for a tombstone on their own id.
- A rollback that names its own id becomes a tombstone: its registry row exists, its ledger row does not yet.
- The money of a rollback goes to the requesting account, the RTP removal to the account of the original.
  Nothing compares the two, so per-account report results assume they agree; `Agreement` has the exact condition,
  and `Agreement.ForeignRollbackMovesGaps` the runs that fail it.
- Rolling a rollback back moves the money again but not the report; `Agreement.RevivedBetIsUnreported` has
  the runs that show it.
- The Rust service does not have quite the semantics of the exact machine: above 2^63-1 its sign check
  fails and it reports insufficient funds. `RustProcessor.RustDiffersOnlyAboveMax` says exactly when, and
  `RustRuns.FullAccountRefusesWin` shows it.
- The two services cannot share a database as they stand. Rust stores microseconds; TypeScript reads them into
  a `Date`, which keeps milliseconds, and then updates `WHERE created_at =` that value. The mark reaches the
  original iff its time has whole milliseconds (`Mixed.MarkedIffWholeMilliseconds`); otherwise intent and
  removal are written and `rolled_back_by` is not (`Mixed.RustBetTypeScriptRollback`).
- With more than one drain worker a rollup column may be negative for a while
  (`TwoWorkers.TwoWorkersGoNegative`); with one worker it never is.
- `recoverStaleRtpOutbox` never finds a row, because claim and completion commit together.

## Model

| member | source | states |
|---|---|---|
| Concurrent.Serializable | src/processor.ts:30-92 | For every interleaving of lock, read-and-decide, write, commit, abort, claim, upsert, finish, drop and recovery steps, with requests of either service, the committed tables are those of the committed requests and batches run one at a time in commit order, none refused; every transaction in flight stands where serial processing of its action prefix on the tables committed by now would. |
| Concurrent.MoveKeepsInv | src/db/transaction.ts:3-16 | Each single step keeps that correspondence, together with disjoint claims and every table invariant. |
| Reached.HistoriesAreServableRuns | src/processor.ts:30-92 | A list of requests and batches is what some interleaving commits, in that order, iff, run one at a time, each request has fresh draws and readable times and is accepted by a service of the database, and each batch takes pending rows. |
| Reached.ServedIsReached | src/processor.ts:30-69 | Whatever request a service accepts can run, from any state with no transaction in flight, to its commit, and leaves the tables of `Serve`. |
| Endings.AbortEnds | src/db/transaction.ts:10-14 | An abort is possible at any time; the transaction is gone and cannot commit, nothing else has changed, its account lock is free, and the very same request can take it again. |
| Endings.CommitEnds | src/db/transaction.ts:6-9 | A commit is possible iff every action is done; it publishes the tables of serving the request now, adds that request to the history, and releases the account and nothing else. |
| Endings.CommitFollowsLock | src/db/transaction.ts:3-16 | In every behavior, what a commit adds to the history is the request some earlier lock was taken for, with no abort, commit or lock of that transaction in between. |
| Endings.TxnCanGoOn | src/processor.ts:39-56 | A transaction in flight can always decide, act or commit, whatever the others do, unless its next action is refused. |
| Endings.DropEnds | src/db/transaction.ts:10-14 | A worker can fail at any time; it is gone and cannot finish, nothing else has changed, and the very rows it held can be claimed and written again. |
| Endings.FinishEnds | src/reports/rtp-outbox.ts:117-127 | A worker that finishes commits the batch of its rows, which are pending no more, adds that batch to the history, and releases its outbox and rollup rows and nothing else. |
| Endings.FinishFollowsClaim | src/reports/rtp-outbox.ts:57-127 | The batch a finish adds to the history is the one some earlier claim took, with no failure, finish or claim of that worker in between. |
| Endings.WorkerCanGoOn | src/reports/rtp-outbox.ts:81-115 | A worker can finish, or write any rollup row it has left that no other worker holds. |
| Endings.RecoverResets | src/reports/rtp-outbox.ts:41-53 | Recovery turns exactly the processing rows back to pending, and changes nothing else. |
| Transactions.CommitIsServe | src/processor.ts:30-69 | A commit makes visible exactly the tables and the replies of serving the whole request on its own at that moment; a Rust request, those of the bounded machine. |
| Transactions.RefusalIsRefused | src/processor.ts:162-164 | No spurious refusal: a transaction that refuses an action would be refused as a whole if served alone on the tables committed now, in either service. |
| Concurrent.AlwaysReconciled | tests/concurrency.test.ts:22-47 | At every moment of every interleaving no balance is negative, each equals its opening plus the account's ledger deltas, and rollup plus undrained outbox is the report recomputed from the ledger. |
| Concurrent.BalancesStayInRange | rust-service/src/processor.rs:28-89 | Where the Rust service alone serves the database, no interleaving takes a balance above 2^63-1. |
| Races.WithoutLockUpdatesAreLost | src/processor.ts:81-89 | The same system without its account locks has, for any two bets an account can each pay for, a behavior that ends with both in the ledger and one of them paid. |
| Races.SharedIdsBreakTombstones | src/processor.ts:224-230 | The same system in which accounts may name one id at the same time has, for any bet and another account's early rollback of it, a behavior that ends with the bet applied and its tombstone in place, which no serial run reaches. |
| Concurrent.ExactlyOnce | src/reports/rtp-outbox.ts:55-129 | Under concurrent workers and aborts: in-flight claims are pairwise disjoint sets of pending rows, no committed row is 'processing', each row is drained at most once, and the rollup is the sum of the processed deltas. |
| Concurrent.DrainedOnce | src/reports/rtp-outbox.ts:117-124 | In every run a row is processed iff some batch drained it, and no two batches drained the same row. |
| Concurrent.FinishIsDrain | src/reports/rtp-outbox.ts:81-115 | Rollup rows written one by one under their locks, with other batches committing in between, add up to the one-step batch. |
| SingleWorker.RollupNeverNegative | src/processor.ts:345-382 | In every state of every interleaving of live requests with a single drain worker no column of any rollup row is negative. |
| SingleWorker.ApplyAllInOrder | src/processor.ts:71-92 | From rising draws and ownership of ids: whatever a request appends to the outbox is in id order, account by account. |
| SingleWorker.LimitTakesInOrder | src/reports/rtp-outbox.ts:59-66 | The batch a single worker claims leaves behind no earlier unprocessed row of an account it takes a row of. |
| TwoWorkers.TwoWorkersGoNegative | src/reports/rtp-outbox.ts:59-66 | With at most two workers, each claiming the lowest pending rows the other does not hold, some behavior from seeded balances ends with a column at minus the amount of a bet. |
| Slices.JudgeBySlice | src/processor.ts:145-267 | The verdict on an action depends only on its account and the rows of the ids it names. |
| Slices.ServeElsewhere | src/processor.ts:30-69 | A request of another account that names none of these ids leaves account and rows alone. |
| Slices.SliceDetermines | src/processor.ts:39-56 | How far a request gets, its replies and all rows it writes are the same on any two databases that agree on its account and the rows of the ids it names. |
| Runs.RunKeepsGood | sql/schema.sql:8-147 | Every key, CHECK, foreign key and cross-table law holds in every state reachable by requests and batches in any order. |
| Runs.ServeKeepsGood | src/processor.ts:30-69 | A served request keeps all of them. |
| Runs.RefusedIffOverdrawn | src/processor.ts:162-164 | A request is refused iff, after a served prefix, some new action takes the balance below zero. |
| Runs.SeededIsGood | sql/schema.sql:8-15 | Seeded balances and empty tables are a valid start. |
| LedgerLaws.ActionKeepsLaws | src/processor.ts:145-267 | Any claimed action that does not overdraw keeps the laws tying registry, ledger, intents and `rolled_back_by` to one another. |
| NaiveLedger.JudgementIsScan | src/processor.ts:152-188 | The status and delta chosen from intents and registry are those of a scan of the ledger that knows neither. |
| NaiveLedger.IntentsAreTargets | sql/schema.sql:102-108 | An id is in `rollback_intents` iff some ledger row is a rollback of it. |
| NaiveLedger.RunExplainsItself | src/processor.ts:203-245 | In every reachable state each row has exactly the status and delta that a scan of the rows written before it gives. |
| History.RunConserves | src/processor.ts:58-65 | In every run each balance is the account's opening plus the sum of its `balance_delta`. |
| History.ServeConcat | src/processor.ts:39-67 | A request `a + b` commits iff `a` and then `b` commit as two requests, with the same tables and concatenated replies. |
| History.FirstResultWins | src/processor.ts:39-44 | Committed requests answer each action in turn with its id and a tx id, and any two answers of a run to the same action id carry the same tx id. |
| History.RedeliveriesErase | src/processor.ts:94-143 | Removing all redeliveries of committed requests from a run leaves the final tables unchanged. |
| History.ErasedIffRepeated | src/processor.ts:94-143 | What that removes is exactly the requests for which an earlier one of the same account, action for action the same, committed. |
| History.RunAccumulates | src/processor.ts:246-254 | Ledger, intents and outbox only grow; a ledger row changes only in `rolled_back_by`, from empty, once; a processed row stays processed. |
| History.OneAppliedRollback | sql/schema.sql:102-108 | An original has at most one applied rollback; it came later, moved exactly the opposite amount, and is the one `rolled_back_by` names. |
| History.RegistryIsLedger | src/processor.ts:113-137 | In every reachable state an id is registered iff it has a ledger row, has exactly one, and both agree on account, tx id and time. |
| History.RowsObeyTombstones | src/processor.ts:161-188 | In every reachable state a bet or win has an intent iff it was pre-rolled or has been rolled back; a row is applied iff it moved money; a rollback is 'already rolled back' iff another one holds the intent. |
| Chains.NoBranches | src/processor.ts:210-222 | Applied rollbacks form chains that never branch: a row is determined by its root and depth. |
| Chains.TipIsDeepest | src/processor.ts:240-254 | The unreversed end of a chain is as deep as the chain is long. |
| Chains.ChainsCancel | src/processor.ts:240-245 | Over accounts no applied rollback crosses, the balance deltas sum to the signed amounts of the bets and wins reversed an even number of times. |
| ClosedForm.AllMoneyCancels | src/processor.ts:203-267 | The same over all accounts together in every reachable state, with no assumption about accounts. |
| ClosedForm.GainIsReportedPlusRevived | src/processor.ts:353-381 | Balance minus opening is reported wins minus reported bets, plus the bets and wins revived by reversing their rollback. |
| ClosedForm.RolledBackIffNamed | src/processor.ts:152-161 | A bet or win ends up rolled back or pre-rolled iff some delivered rollback names it, in whatever order they came. |
| ClosedForm.ReportsClosedForm | src/processor.ts:193-198 | Of one account the reports hold: as bets and wins the amounts it delivered that no delivered rollback names, as rolled back those that one names, as rounds the number of bets not named, as rollback count the number of distinct originals it named; provided ids that concern this account are used once. |
| ClosedForm.BalanceClosedForm | src/processor.ts:210-266 | An account that rolls back its own bets and wins only holds its opening plus the wins and minus the bets that none of its rollbacks names, whatever other accounts do among themselves. |
| ClosedForm.ArrivalOrderIsIrrelevant | src/processor.ts:39-56 | Two runs that deliver the same actions of one such account, in any order, split and repetition and amid any traffic of others, leave it with the same balance and report totals. |
| Agreement.GapOfOneAction | src/processor.ts:240-264 | By how much one action moves an account's balance away from its reported wins minus bets, for every account. |
| Agreement.MoneyMatchesReport | src/processor.ts:256-264 | Balance and report move alike for every account iff the action is not an applied rollback of a rollback or of another account's action. |
| Agreement.RevivedBetIsUnreported | src/processor.ts:371 | A family of runs in which they differ: a bet and any number of rollbacks, each of the one before, report nothing, and an even number of them leaves the bet paid for. |
| Agreement.OrderMattersToChains | src/processor.ts:210-230 | The same three actions of one account, a bet, its rollback and the rollback of that, leave different balances in order and with the last one first. |
| Agreement.ForeignRollbackMovesGaps | src/processor.ts:256-263 | Another family: a bet rolled back by another account leaves both accounts' balances apart from their reports by the amount, in opposite directions. |
| Processor.ProcessAggregatorRequest | src/processor.ts:30-69 | A request ends in exactly the tables of `Serve` and answers with the balance then stored and, action by action, the registered tx ids (for no actions, with the balance alone); or, iff one of its actions overdraws, in insufficient funds with every table, claims and account row included, as before; no constraint violation is reachable. |
| Processor.ProcessActions | src/processor.ts:31-68 | The whole loop ends where `Serve` does and answers with the replies of `Serve` and the balance then stored, or with that balance alone if there are no actions; or it ends in insufficient funds. |
| Processor.ServedAnswers | src/processor.ts:34-67 | Whenever a request is served its account is open, and each reply names its action and the tx id registered for it. |
| Processor.ProcessBetOrWin | src/processor.ts:145-201 | Writes exactly the rows of the action's effect and returns the new balance, or refuses for insufficient funds and writes nothing; no constraint can stop it. |
| Processor.ProcessRollback | src/processor.ts:203-267 | All four outcomes of a rollback, each with exactly its effect, or insufficient funds and nothing written; a reversal marks its original iff the original's time was read as it was written. |
| Processor.RecordOriginal | src/processor.ts:168-198 | The row of a bet or win and the one delta its rollup gets, applied or pre-rolled. |
| Processor.RecordRepeat | src/processor.ts:219-222 | A rollback of an original that has an intent leaves its row and nothing else: no intent, no count. |
| Processor.RecordRollback | src/processor.ts:226-228 | The row of a rollback and the intent of its original. |
| Processor.RecordNoop | src/processor.ts:226-238 | The row, the intent and the count of a rollback that reverses nothing. |
| Processor.RecordReversal | src/processor.ts:244-264 | All rows of a rollback that reverses its original, and the mark on the original if the time fits. |
| Processor.EnqueueReversal | src/processor.ts:256-264 | Removal in the original's bucket first, then the count in the rollback's. |
| Mixed.MarkedIffWholeMilliseconds | src/processor.ts:246-254 | A reversal by the TypeScript service keeps the laws of the tables iff the time of its original has whole milliseconds. |
| Mixed.UnmarkedIsUnreconciled | src/processor.ts:256-264 | When it does not, the removal is posted while the original still counts, and the reports no longer agree with the ledger. |
| Mixed.RustBetTypeScriptRollback | rust-service/src/processor.rs:142 | A run of both services that gets there. |
| RustProcessor.ProcessRequest64 | rust-service/src/processor.rs:13-96 | A request commits exactly what bounded exact arithmetic does, no wrapped balance included, and answers with the balance then stored and the registered tx ids; or it leaves everything as before, with bad request or insufficient funds as `WhyItFails` says. |
| RustProcessor.WhyItFails | rust-service/src/processor.rs:200-221 | A request is bad iff, after a served prefix, comes a new bet or win with an amount of zero or less; it lacks funds iff some other new action takes the exact balance out of [0, 2^63-1]; it fails in no other way. |
| RustRuns.RunIsExact | rust-service/src/processor.rs:13-96 | In any run, with arbitrary `i64` amounts, the Rust service reaches exactly the tables of the exact run of what it committed; all laws hold there and every balance lies between zero and 2^63-1. |
| RustRuns.FullAccountRefusesWin | rust-service/src/processor.rs:218-221 | A full account refuses any win that the exact machine accepts. |
| RustProcessor.RustDiffersOnlyAboveMax | rust-service/src/processor.rs:366-370 | Where every newly claimed amount is positive, the Rust service and the exact, unbounded machine answer differently iff the exact machine commits and some prefix takes the exact balance above 2^63-1. |
| RustProcessor.RustRefinesExact | rust-service/src/processor.rs:28-74 | Whatever the Rust service commits, the exact machine commits with the same tables and replies. |
| RustProcessor.SignCheckIsExact | rust-service/src/processor.rs:218-221 | The sign check on a wrapped sum accepts iff the exact sum lies in [0, 2^63-1], and then the sum is exact. |
| RustProcessor.Wrap | rust-service/Dockerfile:6 | Two's-complement reduction: the one number in the `i64` range that is congruent modulo 2^64. |
| RustProcessor.ProcessActions64 | rust-service/src/processor.rs:18-95 | The loop ends where exact bounded arithmetic does, with its replies and the balance then stored, or with the error of its first failing action. |
| RustProcessor.ProcessAction64 | rust-service/src/processor.rs:28-74 | One turn of the loop, claim included, does what exact bounded arithmetic does: the recorded tx id, the new balance and rows, or the error, which is bad request iff the id is new, the action a bet or win, and the amount not positive. |
| RustProcessor.ProcessBetOrWin64 | rust-service/src/processor.rs:191-277 | Bad request for an amount of zero or less, and otherwise, with wrapping arithmetic, exactly the exact effect, or insufficient funds if the exact balance leaves [0, 2^63-1]; either error writes nothing. |
| RustProcessor.Reverse64 | rust-service/src/processor.rs:366-419 | A reversal in wrapping arithmetic: exactly the exact effect, or insufficient funds and nothing written. |
| RustProcessor.ProcessRollback64 | rust-service/src/processor.rs:279-420 | The same for rollbacks, whose negated delta cannot wrap. |
| Reconciliation.RollupPlusUndrained | src/reports/rtp-outbox.ts:16-39 | For any set of buckets, rollup plus undrained outbox equals the sums recomputed from the ledger. |
| Reconciliation.PostsMatchLedger | src/processor.ts:345-413 | The outbox rows of any action are worth, in every bucket and column, exactly what the ledger's recomputed report changes by. |
| Reconciliation.DrainKeepsBalanced | src/reports/rtp-outbox.ts:81-124 | A batch keeps outbox, rollup and ledger in agreement. |
| Rollup.BatchIsFold | src/reports/rtp-outbox.ts:83-113 | Group-by and upsert equals adding each claimed delta singly. |
| Rollup.BatchesMerge | src/reports/rtp-outbox.ts:55-129 | Two disjoint batches in a row equal one batch of their union. |
| Rollup.Lowest | src/reports/rtp-outbox.ts:59-66 | A limit takes as many pending ids as there are, up to the batch size. |
| Rollup.LowestSkipsNone | src/reports/rtp-outbox.ts:63-65 | It takes no id while leaving a lower one. |
| RtpOutbox.DrainRtpOutbox | src/reports/rtp-outbox.ts:55-129 | One call commits the batch of the lowest pending ids that no other session holds and returns how many they were. |
| RtpOutbox.DrainRtpOutboxUntilEmpty | src/reports/rtp-outbox.ts:131-138 | It terminates, returns the number of rows initially pending and not held elsewhere, and for every positive batch size leaves the rollup one big batch of them would. |
| RtpOutbox.RecoverStaleRtpOutbox | src/reports/rtp-outbox.ts:41-53 | Always resets zero rows and changes nothing. |
| RtpOutbox.ClaimedThenProcessed | src/reports/rtp-outbox.ts:57-124 | The intermediate status leaves no trace in what a batch commits. |
| Listing.ReachedUserReportIsExact | src/reports/rtp.ts:16-57 | In every reachable drained state each page of the user report of an aligned window is that page of the report recomputed from the ledger: which accounts, in which order, all columns and ratios. |
| Listing.SeededUserReportIsExact | src/reports/rtp.ts:16-57 | In particular in every drained state reached from seeded balances and nothing else. |
| Listing.UserReportIsExact | src/reports/rtp.ts:32-54 | The same for any state that satisfies the invariants. |
| Listing.ListedIffActive | src/reports/rtp.ts:21-50 | In a drained state the report lists an account iff its currency and user pass the filters and the ledger has a row of it, created in the window, that is not a rollback that came too late. |
| Listing.RunKeepsKeyed | src/reports/rtp-outbox.ts:94-102 | In every reachable state the rollup has rows for exactly the buckets of processed outbox rows, and the outbox for exactly those of contributing ledger rows. |
| Reports.CasinoReportIsExact | src/reports/rtp.ts:59-86 | In every drained state that satisfies the invariant, as all reachable ones do, the casino report of a window of whole minutes, ratio and null case included, is the one recomputed from ledger rows created in that window, of the given currency if there is one; a user filter is ignored. |
| Reports.DrainedReportIsExact | src/reports/rtp.ts:32-54 | Once the outbox is drained, any window sums to what the ledger gives between the next minute boundaries, and for an aligned window to what it gives in that window. |
| Reports.UserRowsAreOrdered | src/reports/rtp.ts:21-50 | One row for each account that passes the currency and user filters and has a rollup row in the window, and no other, strictly rising by user and then by currency. |
| Reports.CasinoIsSumOfUsers | src/reports/rtp.ts:64-85 | Every casino column is the sum of that column over all user rows of the same currency filter, whatever user filter the query has. |
| Reports.PagesReproduce | src/reports/rtp.ts:51 | The first pages, put together, are exactly as many rows from the start of the ordered user list. |
| Reports.Page | src/reports/rtp.ts:51 | The rows from the offset on, as many as the limit allows or as there are. |
| Reports.WindowsAdd | src/reports/rtp.ts:21 | The sums of two adjacent windows add up to those of the whole. |
| Reports.MinuteBoundaries | src/reports/rtp.ts:21 | To the minute rollup a window bound means the next whole minute, a multiple of 60 seconds. |
| Store.LookupsAgree | src/processor.ts:269-286 | The registry-guided lookup returns what a scan of all partitions would, also for an id that is claimed but has no row yet. |
| Store.RowsSetIffTimeFits | src/processor.ts:246-254 | The update by id and time reaches the row of that id iff the time is the row's own, and reaches no other. |
| Store.Database.ClaimAction | src/processor.ts:101-142 | First result wins: a new row, or the existing row's tx id and no change; a violation and no change iff the id is new and another row has the tx id. |
| Store.Database.UpdateBalance | src/processor.ts:58-65 | Writes one balance, or violates the CHECK and writes nothing. |
| Store.Database.FindActionForUpdate | src/processor.ts:269-286 | The one ledger row of the id, or none, as a full scan would find it. |
| Store.Database.InsertAction | sql/schema.sql:26-55 | Appends iff the id is registered and amount and original fit the type. |
| Store.Database.InsertIntent | sql/schema.sql:102-108 | Inserts iff the original has no intent, the rollback has written none, and it is registered. |
| Store.Database.SetRolledBackBy | src/processor.ts:246-254 | Fills `rolled_back_by` of the rows with that id and time, and changes nothing else. |
| Store.Database.EnqueueRtpDelta | src/reports/rtp-outbox.ts:16-39 | Appends one pending row, bucketed at the multiple of 60 seconds its time falls after, unless its id is taken. |
| Schema.Minute | src/reports/rtp-outbox.ts:24 | The multiple of 60 seconds at or before the time, less than 60 seconds before it. |
| Store.Database.ClaimPending | src/reports/rtp-outbox.ts:57-76 | Marks as processing the lowest pending ids that no other session holds, up to the limit. |
| Processor.EnqueueAppliedOriginal | src/processor.ts:345-361 | One row worth an applied bet or win. |
| Processor.EnqueueRemoveAppliedOriginal | src/processor.ts:363-382 | One row that takes an applied original out again, in the original's own bucket; none for a rollback. |
| Processor.EnqueueRolledBackOriginal | src/processor.ts:384-399 | One row worth a pre-rolled bet or win. |
| Processor.EnqueueRollbackCount | src/processor.ts:401-413 | One row that counts a rollback. |
| Processor.InsertRollbackAction | src/processor.ts:288-323 | One rollback row with no amount, unless the id is unregistered. |

## Left out

- HMAC authentication, HTTP routing, JSON and schema decoding, error-to-status mapping: plumbing around the model.
- Connection pools, migrations, SQL text, deadlocks and timeouts: statements and row locks are modelled directly.
- `ensure_actions_month_partition` and partition pruning: the ledger is one sequence; what the registry lookup needs of partitions is `Store.LookupsAgree`.
- User ids, currencies and action ids are natural numbers; text collation and UUID syntax are not modelled.
- `game`, `game_id`, `account_hash`, `updated_at`, `rolled_back_at`, `locked_at`, `processed_at` and `attempts`: carried through by the code, read by nothing modelled. The stale-lock condition is an arbitrary set of rows.
- JavaScript numbers above 2^53 and the range error a `bigint` column then raises: the TypeScript model uses unbounded integers.
- `bigint` overflow of outbox deltas and rollup sums; only balances and balance deltas are bounded in the Rust model.
- RTP as a floating-point quotient: numerator, denominator and the null case are kept. The label 'ALL' of the casino row is an absent account.
- A claim that blocks on another account's uncommitted claim of the same id and then finds no row: requests in flight for different accounts are taken to name different ids.
- Interleavings of both services on one database whose times TypeScript cannot read: excluded by `Concurrent.Arrives`; `Mixed` treats such a rollback on its own.
- The order of claims by interleaved workers: but for the single-worker result, a worker may claim any pending rows nobody holds, which includes every claim `SKIP LOCKED` allows.
- Statement sequences that both services repeat inline stand once, in `RecordOriginal`, `RecordRepeat`, `RecordRollback`, `RecordNoop`, `RecordReversal` and `EnqueueReversal`; the body of the Rust loop is `ProcessAction64`, the end of its rollback `Reverse64`.
- The order of reads within a rollback's row lock on its original (`FOR UPDATE`): within one account the account lock already excludes others.
