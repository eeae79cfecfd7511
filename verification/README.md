# EventForge: a verified model of the payment pipeline

EventForge is an at-least-once payment pipeline. The gateway stores a transaction and an outbox row;
a relay publishes the row; the fraud processor scores it against a sliding window in Redis; the
ledger moves the money and writes its own outbox; a second relay publishes the verdict; the gateway
shows the verdict and the processor gives refused velocity back. Every hop may stop between its
durable write and its acknowledgement, so every message can be seen twice, late, or scored again.

No single mechanism makes this correct. This project models them all in Dafny - uniqueness
constraints, row locks, commit order, pruned and expiring sorted sets, manual offsets - and proves
what they give together. `dafny verify dfyconfig.toml` checks the whole project.

## How the project is laid out

| file | what it holds |
|---|---|
| `Common.dfy` | message and status types, column widths |
| `SlidingWindow.dfy`, `RedisKey.dfy` | the pruned, expiring sorted set against a full, never pruned log |
| `VelocityMember.dfy`, `VelocityStore.dfy` | the text members `<id>:<amount>` and the Redis velocity store as a class |
| `FraudScorer.dfy`, `Processor.dfy` | the score and the two consumer loops of the fraud processor |
| `Ledger.dfy` | one `create_ledger` as an atomic step, and what every sequence of steps keeps |
| `LedgerVerdicts.dfy` | what one call leaves, column by column, in balances, statuses, reasons and entries |
| `LedgerService.dfy` | `create_ledger` as it runs: session, flush, commit, consumer loop |
| `LedgerWorkers.dfy`, `LedgerDeadlock.dfy`, `LedgerProgress.dfy` | any number of interleaved workers: serializability, deadlock freedom, every call can finish |
| `OutboxRelay.dfy`, `RelayFleet.dfy` | one relay pass; any number of relay instances with crashes |
| `Settlement.dfy` | the unguarded status overwrite and its consumer loop |
| `GatewayIdempotency.dfy`, `GatewayLaws.dfy` | interleaved POST requests over an expiring lock and two unique columns; what a client of one key sees |
| `RateLimiter.dfy` | the rate limiter as a sliding window of nanosecond stamps |
| `Kafka.dfy`, `Pipeline.dfy`, `PipelineSteps.dfy` | topics, offsets, the whole pipeline as one transition system, and what each of its steps does seen from outside |
| `PipelineInvariant.dfy`, `PipelineResults.dfy`, `PipelineProgress.dfy`, `SpendBound.dfy` | its invariant and the end-to-end results |

What an operation computes is also stated without the functions that compute it: in literal scores,
statuses, balances, messages and cache contents (the members named `...Exactly` and `...Exact`).

A service that updates state in place is a class whose methods follow the source statement by
statement and are specified by functions on values; the laws are proved about those functions. A
protocol of several processes is a transition system, and its laws are about every run of it.

## The main results

- **Serializability** (`LedgerWorkers.Serializable`): however workers interleave their locks, reads,
  inserts, absolute balance writes, commits and rollbacks, the database is the atomic call folded
  over the order in which calls returned, and over only the first message of each id.
- **Deadlock freedom** (`LedgerDeadlock.DeadlockFree`): no circle of waiting workers, and while one is
  unfinished one can go on; from every reachable state all calls in flight can finish and be recorded
  (`LedgerProgress.AllCallsCanFinish`).
- **Exact verdicts** (`LedgerVerdicts.VerdictExactly`): a new transaction is completed if and only if it is
  approved, both accounts exist and differ, and the sender has the money; every column follows.
- **The books** (`LedgerInvariants.ReplaySound`): balances equal their start plus entries, debits equal
  credits, the sum is constant, no balance falls below min(0, start), and each transaction has exactly
  one event and, only if completed, one debit and one credit.
- **Window refinement** (`SlidingWindow.WindowRefinesLog`, `VelocityStore.Store.CheckAndUpdateVelocity`):
  the total read from the pruned, expiring set is the sum over the full log of every history.
- **Spend bound** (`SpendBound.SpendIsBounded`): what one sender has completed within any window is at
  most 200,000 cents, 50,000 if the one scored last had no location, despite redelivery, re-scoring and
  concurrent rollbacks.
- **Nothing stranded, exactly** (`PipelineResults.NothingStranded`, `StrandedExactly`) and **stable,
  agreeing verdicts** (`VerdictAgreement`, `VerdictStability`).
- **No dead end** (`PipelineProgress.VerdictIsReachableExactly`): from every reachable state, whatever
  crashed before, some continuation brings an accepted transaction to its verdict if and only if its
  amount is at most 1,000,000 cents.
- **One key, one answer** (`GatewayLaws.InProgressIsConflict`, `GatewayLaws.RetryGetsTheId`): while a key is in
  progress every other request is answered 409; after the 201 every retry gets the stored id, until the
  key expires or is deleted.
- **Idempotency** (`GatewayIdempotency.Idempotency`) and **outbox delivery** (`RelayFleet.Delivery`) under
  any interleaving, expiry or crash; **drain measure** (`OutboxRelay.LedgerDrains`,
  `OutboxRelay.GatewayDrains`).

## Properties the code does not have

- **Transactions above 1,000,000 cents are stranded.** Their score is at least 110, the scored message
  does not validate, and the raw offset is committed without one (`services/processor/main.py:71-74`).
  They stay PENDING for ever. `PipelineResults.StrandedExactly` shows that a run leaving an accepted
  transaction without a verdict and without a carrier exists if and only if its amount is above
  1,000,000. The gateway accepts such amounts (`common/models.py:50`).
- **The rate limit counts stamps, not requests.** Two requests with one nanosecond stamp share one
  member (`services/gateway/rate_limiter.py:30,48`). `RateLimiter.SharedStampsPassTheLimit` gives three
  requests that pass a limit of two. Exactly when the code does what it promises, for every history in
  time order: a decision is "fewer than `limit` requests came within the window" if and only if it is
  not the case that the window holds fewer than `limit` stamps but at least `limit` requests
  (`RateLimiter.AdmitsExactly`); and at most `limit` requests are admitted in every half-open window if
  and only if no request finds fewer than `limit` stamps in its window when `limit` requests of it are
  already admitted (`RateLimiter.LimitHoldsExactly`). Both hold when no two requests within one window
  share a stamp (`RateLimit`). Whatever the stamps, at most `limit` different ones are admitted per
  window (`StampLimit`).
- **A wide transfer stops the ledger loop.** An approved message whose amount does not fit the INTEGER
  column of the entries makes `create_ledger` raise each time it is delivered;
  `LedgerInvariants.OversizedTransferRaises` is such a call, 2,500,000,000 cents on a sound ledger. It
  happens exactly so: if the positive starting money fits BIGINT, a call raises if and only if it is a
  new transfer that would complete and whose amount does not fit (`LedgerInvariants.RaisesExactly`); no
  balance ever overflows. Only a message put on the scored topic from outside the pipeline can carry such
  an amount: the pipeline itself never delivers one (`PipelineResults.PostNeverRaises`).
- The risk formula, its thresholds 0.85 and 0.95, and the AML engine of the repository's `README.md`
  (lines 166 and 251-270) are not what the code does; the model follows
  `services/processor/fraud_scorer.py`. `tests/unit/test_fraud_scorer.py` calls `evaluate_fraud` without
  the Redis client the code requires, and expects approval without a location at 1,000,000 cents.

## Assumptions

- A MULTI block and a database commit are atomic. Uniqueness is enforced when a row is flushed or
  committed; an insert of an id that another session holds uncommitted waits for that session.
- `SELECT ... FOR UPDATE` locks the rows in account order and sees the latest committed row.
- Times are integers from one clock that never goes back, in the order in which pipelines execute;
  Redis drops a key no earlier than its time to live says. The velocity window is longer than zero.
- Amounts are strictly positive (`common/models.py:50`). UUIDs are natural numbers, the master account
  is zero; only their equality and order matter, and that their text is injective.
- The ledger's accounts and starting balances are parameters that satisfy the table's CHECK.
- What Redis, the database, the broker and the network do to one call is a parameter of the method
  (`fault`, `faults`, `outcomes`): the call works, fails before it took effect, or took effect although
  the caller sees an error. What other coroutines and instances do to the windows between two turns of a
  loop is a parameter too (`others`).

## Model

| member | source | states |
|---|---|---|
| SlidingWindow.Prune | services/processor/velocity_store.py:39-45 | Exactly the members with a time above `now - window` stay; the lower end of the window is excluded, everything else is kept. |
| SlidingWindow.Remove | services/processor/velocity_store.py:76-80 | Exactly the member with this id and this amount goes; no other member is touched. |
| SlidingWindow.AdmitFacts | services/processor/velocity_store.py:44-51 | After prune and add, the set is the new member with the new time plus the old members in the window, without the older copy of the same member; its total covers the new amount. |
| SlidingWindow.AgreeStep | services/processor/velocity_store.py:44-54 | One add, re-add, rollback or expiry keeps the pruned, expiring set and a set that is never pruned equal for every later prune. |
| SlidingWindow.PruningIsUnobservable | services/processor/velocity_store.py:37-54 | For every history in time order, early pruning and dropping the key at its time to live remove only what the next prune would. |
| SlidingWindow.KeepIsTheLog | services/processor/velocity_store.py:41-80 | The never pruned set sums to the full log: the adds in the window that nothing later re-adds or rolls back. |
| SlidingWindow.WindowRefinesLog | services/processor/velocity_store.py:37-80 | For every history of adds, re-adds, rollbacks and expiries, the stored set holds at any later time exactly the total of the full, unpruned log. |
| SlidingWindow.ReturnedTotalIsLogTotal | services/processor/velocity_store.py:41-65 | The number a call returns is the log total that includes the new transaction, whatever happened before. |
| SlidingWindow.AddCountsOnce | services/processor/velocity_store.py:47-51 | Adding a transaction raises the log total by exactly its amount, and by nothing if it still counts from before. |
| SlidingWindow.RollbackGivesBack | services/processor/velocity_store.py:76-80 | A rollback lowers the log total by exactly the amount, and by nothing if the transaction does not count. |
| VelocityMember.MemberRoundTrip | services/processor/velocity_store.py:18-20 | Splitting at the last colon and parsing gives back the printed amount, for any id text. |
| VelocityMember.MemberShape | services/processor/velocity_store.py:48 | The member text is the id, a colon, and one or more decimal digits. |
| VelocityMember.MemberInjective | services/processor/velocity_store.py:77 | Two equal member texts have equal ids and equal amounts, so a rollback names one member. |
| VelocityMember.ExtractTotalIsSum | services/processor/velocity_store.py:15-22 | Printing any list of ids and amounts and extracting the total gives the sum of the amounts. |
| VelocityStore.EncodeAdmit | services/processor/velocity_store.py:44-48 | The Redis commands on text members do what prune and put do on the entries they stand for. |
| VelocityStore.EncodeRemove | services/processor/velocity_store.py:76-80 | ZREM of the text removes exactly the entry with that id and amount. |
| VelocityStore.EncodeTotal | services/processor/velocity_store.py:50-65 | Parsing what ZRANGE returns never fails and gives the total of the entries. |
| SlidingWindow.ExpiryLeavesTheLog | services/processor/velocity_store.py:53-54 | An expiry changes the full log's total at no time. |
| RedisKey.ExpiryIsUnobservable | services/processor/velocity_store.py:53-54 | A key past its deadline may vanish: the missing key holds what the history replays to, and no total at any time changes. |
| VelocityStore.PruneAndAdd | services/processor/velocity_store.py:44-48 | The writes of the MULTI block leave the text form of the pruned window with the new member. |
| VelocityStore.ReadTotal | services/processor/velocity_store.py:50-65 | The reads of the MULTI block give the total of the stored entries. |
| VelocityStore.Store.CheckAndUpdateVelocity | services/processor/velocity_store.py:24-65 | A successful call returns the total of the account's full log at that time, the new transaction included; a failed one raises, and the log grows exactly if the server ran the block; the key then lives for exactly one window more; no other key changes. |
| VelocityStore.Store.RollbackVelocity | services/processor/velocity_store.py:68-88 | The account's history gains one rollback, its window loses exactly that member, no other account changes; it raises exactly on a failure. |
| VelocityStore.Store.KeyExpires | services/processor/velocity_store.py:53-54 | The key vanishes and no log total of any account at any time changes. |
| FraudScorer.ExactDecision | services/processor/fraud_scorer.py:20-51 | Since the total includes the transaction, APPROVED holds iff the total is at most 200,000 with a location or 50,000 without; the score is valid iff the amount is at most 1,000,000, and at least 110 above. |
| FraudScorer.ExactRefusal | services/processor/fraud_scorer.py:20-51 | For a valid score, FLAGGED and REJECTED hold exactly in the stated ranges of the total; with a location nothing is ever rejected. |
| FraudScorer.ExactScore | services/processor/fraud_scorer.py:20-51 | The score and decision in numbers: with a location 0, 25, 60 and without one 25, 50, 85 for totals up to 50,000, up to 200,000 and above; over 1,000,000 cents 110 or 135 and no message. |
| FraudScorer.EvaluateFraud | services/processor/fraud_scorer.py:6-32 | The window is updated first; then the result is exactly the numeric score and decision of the full log's total that includes the transaction, or invalid iff the amount is above 1,000,000; a Redis failure raises. |
| Processor.AckedIsScoredExactly | services/processor/main.py:45-74 | Whatever the settled loop and other instances do to the windows in between: below the committed raw offset a valid message of at most 1,000,000 cents added exactly one message to the scored topic, with the numeric score and the decision of its log total at its turn; any other message added none. |
| Processor.FraudProcessor.ScoreAndPublish | services/processor/main.py:48-66 | A turn has its full effect on window and topic exactly when Redis works and, up to 1,000,000 cents, the send works; otherwise it did nothing, only the window update, or all of it. |
| Processor.FraudProcessor.HandleRaw | services/processor/main.py:45-82 | The message is acknowledged iff the offset commit works and, if it is valid, its full turn was done; an invalid one is skipped. |
| Processor.FraudProcessor.ProcessRawTransactions | services/processor/main.py:33-82 | With any accesses of others to the windows before each turn: up to the committed offset all messages had their full turn in order; the offset stops exactly at the first message whose turn or offset commit failed, which had at most a broken turn. |
| Processor.FraudProcessor.HandleSettled | services/processor/main.py:91-120 | REJECTED and BLOCKED messages add exactly one rollback to the sender's log, any other message changes nothing; acknowledged iff the offset commit and the rollback it needs work. |
| Processor.FraudProcessor.ProcessSettledTransactions | services/processor/main.py:85-120 | With any accesses of others to the windows before each turn: up to the committed offset every REJECTED and BLOCKED message was rolled back in order; the offset stops exactly at the first message whose rollback or offset commit failed. |
| Processor.OnlyRefusedAreTakenBack | services/processor/main.py:96-103 | While others only score, a rollback is in an account's history iff it was there before or a handled message of that sender with status REJECTED or BLOCKED names that transaction and amount. |
| LedgerInvariants.StepBooks | services/ledger/main.py:153-189 | One call keeps: each balance is its start plus its credits minus its debits, debits equal credits, the sum of balances is constant. |
| LedgerInvariants.StepBounds | services/ledger/main.py:146-154 | One call keeps: no balance below min(0, its start), the master account included; the CHECK holds; the positive money does not grow. |
| LedgerInvariants.StepEvents | services/ledger/main.py:84-209 | One call keeps: each transaction has exactly one outbox row, with its status and a matching reason. |
| LedgerInvariants.StepPairs | services/ledger/main.py:175-189 | One call keeps: a completed transaction has exactly one debit and one credit of one amount on distinct accounts, any other none. |
| LedgerInvariants.ReplaySound | services/ledger/main.py:71-217 | Every sequence of messages keeps all of these together, and entries carry the amount and the sender of the event. |
| LedgerInvariants.BalanceCeiling | services/ledger/db_models.py:17-22 | No reached balance exceeds the sum of the positive starting balances. |
| LedgerInvariants.RaisesExactly | services/ledger/main.py:212-222 | If that sum fits BIGINT, a call raises iff it is a new transfer that would complete and whose amount does not fit the INTEGER column, whichever fault a flush reports first; no balance overflows. |
| LedgerInvariants.OversizedTransferRaises | services/ledger/db_models.py:39 | A concrete call on a sound ledger that raises: an approved, covered transfer of 2,500,000,000 cents. |
| LedgerInvariants.SwallowsOnlyDuplicates | services/ledger/main.py:215-217 | On a sound ledger the swallowed IntegrityError occurs iff the transaction is already recorded; a call that did not raise leaves it recorded. |
| LedgerInvariants.ReplayIsIdempotent | services/ledger/main.py:71-217 | Deleting every message of an already recorded id changes nothing: same balances, statuses, entries and outbox, whatever the duplicate decides. |
| LedgerInvariants.OnlyFirstMessagesMatter | services/ledger/main.py:71-217 | When no call raises, only the first message of each id in the log matters. |
| LedgerInvariants.FittingMessagesAreRecorded | services/ledger/main.py:212-222 | If the money fits BIGINT and approved amounts fit INTEGER, no call of any sequence raises. |
| LedgerInvariants.VerdictsAreFinal | services/ledger/main.py:25-33 | No later message changes a recorded status. |
| LedgerInvariants.SelfTransferNeverCompletes | services/ledger/main.py:122-137 | A transfer to oneself is recorded, never COMPLETED, and moves no money. |
| LedgerVerdicts.VerdictExactly | services/ledger/main.py:84-209 | For a new transaction whose values fit: COMPLETED iff approved, accounts there and distinct, balance at least the amount; FLAGGED gives BLOCKED and REJECTED gives REJECTED; each reason iff its cause; the money moves exactly, or not at all; one event and, if completed, one debit and one credit. |
| LedgerVerdicts.JudgeExactly | services/ledger/main.py:84-154 | Status and reason of any decision on any balances are exactly these. |
| LedgerService.LedgerDb.PostTransaction | services/ledger/main.py:25-33 | The flush reports IntegrityError only for an existing id or a balance that fails the CHECK, a width error only for a balance beyond BIGINT, and neither iff there is none; when both are there, either may come first. |
| LedgerService.LedgerDb.MoveFunds | services/ledger/main.py:121-154 | By counting locked rows and comparing the balance: completed iff both accounts are there and distinct and the balance is at least the amount, otherwise the matching reason; only then exactly the two new absolute balances are in the session. |
| LedgerService.LedgerDb.Stage | services/ledger/main.py:84-209 | Every branch stages one status and one event that match the decision, the accounts and the funds exactly; the flush fails with IntegrityError or a width error exactly as the constraints and the order of reporting say. |
| LedgerService.LedgerDb.Commit | services/ledger/main.py:212-213 | The entries meet their column here; all staged rows appear at once, or none when an amount does not fit. |
| LedgerService.LedgerDb.CreateLedger | services/ledger/main.py:71-222 | A new transaction whose values fit is settled exactly (status, reason, money, entries, event); a recorded one, or a connection that fails before the commit, changes nothing; it raises exactly on a connection failure or a column overflow. |
| LedgerService.StagedIsStep | services/ledger/main.py:84-213 | Committing the staged absolute balances and rows is the atomic step, and the widths fail exactly when that step says so. |
| LedgerService.FoundTwo | services/ledger/main.py:124-137 | The query returns two rows iff both accounts exist and differ. |
| LedgerService.ScoredConsumer.HandleMessage | services/ledger/main.py:229-246 | The offset is committed iff nothing raises and the offset commit works; then the message is invalid or its transaction is recorded. |
| LedgerService.ScoredConsumer.ProcessMessages | services/ledger/main.py:224-246 | The offset stops exactly at the first message that raises or whose offset commit fails; the ledger is the fold of the valid messages up to the one applied last, at most one beyond the offset; below it every valid message is recorded; the ledger stays sound. |
| LedgerWorkers.LocalDecision | services/ledger/main.py:124-154 | A decision taken on the locked rows alone is the decision on the whole database, and the absolute writes are the transfer. |
| LedgerWorkers.CommitIsStep | services/ledger/main.py:212-213 | A commit whose rows are still locked is the atomic step on the database as it is then, although the balances were read earlier. |
| LedgerWorkers.ChecksAlwaysHold | services/ledger/db_models.py:19-22 | Under the locks the balance CHECK never fails, so a swallowed IntegrityError is always the primary key. |
| LedgerWorkers.StepKeepsInv | services/ledger/main.py:81-222 | Every step of every worker keeps: a held row has one holder and still the balance read; an uncommitted id has one holder; the database is the fold of the calls returned. |
| LedgerWorkers.Serializable | services/ledger/main.py:121-217 | For any number of workers and any interleaving with rollbacks, the committed database is the atomic call folded over the return order, or over the first message of each id; it is sound, and every returned call is recorded. |
| LedgerDeadlock.WaitingGoesUp | services/ledger/main.py:121-131 | A worker waits only for workers whose own wanted lock is higher: rows by account id, the id insert above all rows. |
| LedgerDeadlock.NoWaitCycle | services/ledger/main.py:121-131 | The wait-for relation has no cycle. |
| LedgerDeadlock.DeadlockFree | services/ledger/main.py:121-131 | In every reachable state no chain of waiting workers closes, and while some call is unfinished some call can take a step other than a rollback. |
| LedgerProgress.CommitTakesEffect | services/ledger/main.py:212-213 | In any interleaving a commit whose values fit settles its transaction exactly on the database as it is then, ends the call and touches no other. |
| LedgerProgress.FlushTakesEffect | services/ledger/main.py:25-33 | In any interleaving the flush of a recorded transaction ends the call normally with nothing changed; any other flush holds the id and is ready to commit. |
| LedgerProgress.AbortLeavesTheDatabase | services/ledger/main.py:215-222 | A worker may roll back at any moment; the database is as before and its locks are free. |
| LedgerProgress.AllCallsCanFinish | services/ledger/main.py:121-213 | From every reachable state of any number of workers some continuation finishes every call in flight with its transaction recorded, if the money fits BIGINT and approved amounts fit INTEGER. |
| OutboxRelay.MarkCounts | services/ledger/ledger_relay.py:44-47 | Setting a batch of distinct pending rows to PROCESSED lowers the pending count by its length. |
| OutboxRelay.PublishedExactly | services/ledger/ledger_relay.py:37-52 | The broker gets the events of the rows before the first failure in order, then that row's event iff the failed send was delivered, and nothing else. |
| OutboxRelay.Outbox.PublishUntilFailure | services/ledger/ledger_relay.py:37-52 | Message by message: the rows before the first failure are published in order, plus the failed one iff it was delivered; exactly the rows before it are marked. |
| OutboxRelay.Outbox.LedgerPass | services/ledger/ledger_relay.py:19-57 | For any batch of at most 10 pending rows: a KafkaError at index i commits exactly the first i rows, any other exception none; message by message the new messages are their events in order, plus the failed one iff delivered; every row that became PROCESSED has its event among them. |
| OutboxRelay.Outbox.GatewayPass | services/gateway/relay.py:21-69 | For any batch of at most 50 pending rows: any exception at index i commits exactly the first i rows; the new messages are their events in order, plus the failed one iff delivered; every row that became PROCESSED has its event among them; a row without `from_account_id` never changes. |
| OutboxRelay.DrainMeasure | services/gateway/relay.py:28-67 | After k passes without failure the pending count is n - k * limit, or zero. |
| OutboxRelay.DrainsInCeilPasses | services/ledger/ledger_relay.py:24-57 | n pending rows are drained after exactly ceil(n / limit) passes without failure, and not before. |
| OutboxRelay.LedgerDrains | services/ledger/ledger_relay.py:24-57 | n pending rows of the ledger are drained after exactly ceil(n / 10) passes without failure. |
| OutboxRelay.GatewayDrains | services/gateway/relay.py:28-69 | n pending rows of the gateway are drained after exactly ceil(n / 50) passes without failure. |
| RelayFleet.StepKeeps | services/ledger/ledger_relay.py:24-54 | Every step of any instance keeps: batches in flight are disjoint pending rows, and each row's sends are one if PROCESSED or in flight, plus its lost sends. |
| RelayFleet.StepsExactly | services/gateway/relay.py:43-67 | A send publishes the next row and marks none; a commit marks the whole batch, a failed send exactly the rows before it, a crash none; all but the send free the locks, and each is possible whenever it makes sense. |
| RelayFleet.RunFacts | services/gateway/relay.py:28-67 | No row is lost from the table and none goes back from PROCESSED. |
| RelayFleet.Delivery | services/gateway/relay.py:28-67 | For any number of instances and any crashes every PROCESSED row was published and batches are disjoint; a row none of whose sends was lost is published exactly once, or not at all while pending, and so is every row of a run in which no crash follows a send and no failed send was delivered. |
| RelayFleet.EveryRowCanBeMarked | services/ledger/ledger_relay.py:24-54 | From every reachable state of any number of instances each pending row can still be published and marked. |
| Settlement.FinalRow | services/gateway/settlement_consumer.py:20-28 | With one verdict per transaction, any message of a transaction gives its final status and reason; a row without a message is untouched. |
| Settlement.DeliveryOrderIsIrrelevant | services/gateway/settlement_consumer.py:20-28 | With one verdict per transaction, reordering and repeating messages leaves the same table, although the overwrite has no guard. |
| Settlement.StatusUpdater.ReadTransactionStatus | services/gateway/settlement_consumer.py:33-57 | The table is the valid messages overwritten in order; the offset stops exactly at the first message whose offset commit, or update if it is valid, failed, and at most that one is applied beyond it. |
| GatewayIdempotency.StepKeepsInv | services/gateway/main.py:56-109 | Every step of every request, and every lock expiry, keeps: one row per key, one event per row, cached ids and answers name the row of their key. |
| GatewayIdempotency.RowsStay | services/gateway/utils.py:28-49 | A stored transaction is never changed or removed by a later step. |
| GatewayIdempotency.Idempotency | services/gateway/main.py:54-109 | Under any interleaving, expiry, Redis or database failure or crash: at most one row per key, exactly one event per row, at most one 201 per key and with the id of its row; a cached or answered id is that row's id. |
| GatewayIdempotency.Api.StoreTransaction | services/gateway/utils.py:14-51 | Transaction row and outbox row appear together or not at all; IntegrityError iff the id or the key exists; a commit whose reply is lost has stored both. |
| GatewayIdempotency.Api.AcquireLock | services/gateway/main.py:57-59 | The lock is acquired iff the call works and the key is free; the cache then holds the key in progress, an occupied key is left alone; the effect is the protocol's lock step. |
| GatewayIdempotency.Api.ReadCached | services/gateway/main.py:62-78 | 409 while the cache holds the key in progress, 202 with the stored id, 202 without one if the key vanished; the effect is the protocol's read step. |
| GatewayIdempotency.Api.WriteBack | services/gateway/main.py:83-90 | The cache holds the id iff the write took effect; a RedisError is swallowed and 201 is answered, any other error goes to the handler. |
| GatewayIdempotency.Api.HandleException | services/gateway/main.py:100-109 | The key is gone iff this request acquired it and the delete works; 500 is answered. |
| GatewayIdempotency.Api.SaveThenCache | services/gateway/main.py:80-99 | With the lock held: 201 with the two new rows, 202 with nothing new iff id or key exists, or an exception with both rows or none. |
| GatewayIdempotency.Api.HandleAdmitted | services/gateway/main.py:51-109 | An admitted request alone is one run of the protocol; only a 201, or a 500 whose commit was not seen, adds its row and event; without a failure the answer, the cache and the table are exactly given by the cache entry, the taken ids and keys, and the amount. |
| GatewayIdempotency.Api.CreateTransaction | services/gateway/main.py:38-109 | The limiter records every request; one is let through iff the client's full log has fewer than `limit` members in the window; a refused one touches neither cache nor tables; an admitted one behaves as one run of the protocol. |
| GatewayLaws.LockExactly | services/gateway/main.py:57-62 | SET NX in all its outcomes: a free key becomes in progress and its request gets the lock, an occupied one keeps its value and turns the request away; a lost reply leaves a lock nobody holds. |
| GatewayLaws.AnswerExactly | services/gateway/main.py:62-78 | A request turned away is answered 409 for a key in progress and 202 with the id for a stored one. |
| GatewayLaws.StoredExactly | services/gateway/main.py:83-90 | After the commit the id is in the cache and 201 answered, also when Redis refuses the write. |
| GatewayLaws.ReleaseExactly | services/gateway/main.py:100-109 | A failed request is answered 500 and frees the key iff it had the lock and the delete works. |
| GatewayLaws.InProgressIsConflict | services/gateway/main.py:57-71 | In every run in which the key is neither expired nor deleted: while one request holds its lock no other does, and every other request with the key is answered 409. |
| GatewayLaws.RetryGetsTheId | services/gateway/main.py:73-90 | After a 201 whose cache write worked, in every continuation in which the key is neither expired nor deleted: the cache keeps that id, and each later request with the key is answered 202 with it, or 500 if Redis failed it. |
| RateLimiter.UnitTotal | services/gateway/rate_limiter.py:44-45 | The cardinality of the pruned set is its total, so the limiter counts with the window proved for velocities. |
| RateLimiter.Limiter.CheckRateLimit | services/gateway/rate_limiter.py:14-71 | Admitted iff fewer than `limit` different stamps of the client's full log, refused requests included, lie in the window; refused otherwise; 503 on a RedisError; the key then lives for exactly one window more; other identifiers are untouched. |
| RateLimiter.Limiter.KeyExpires | services/gateway/rate_limiter.py:50-51 | The key vanishes and no request count of any identifier at any time changes. |
| RateLimiter.StampsAndRequests | services/gateway/rate_limiter.py:30-48 | The stamps in a window never exceed its requests, and are as many iff no two requests of it share one. |
| RateLimiter.AdmittedByStamps | services/gateway/rate_limiter.py:41-65 | For every history in time order a request is admitted iff fewer than `limit` different stamps are in the window before it. |
| RateLimiter.AdmitsExactly | services/gateway/rate_limiter.py:41-65 | For every history: the decision is "fewer than `limit` requests, refused ones included, came within the window" iff the window does not hold fewer than `limit` stamps but at least `limit` requests; distinct stamps in the window suffice, and a shared one breaks it for some limit. |
| RateLimiter.LimitHoldsExactly | services/gateway/rate_limiter.py:25-71 | For every history: at most `limit` requests are admitted in any half-open window iff no request finds fewer than `limit` stamps in its window while `limit` requests of it are already admitted. |
| RateLimiter.RateLimit | services/gateway/rate_limiter.py:25-71 | When no two requests within one window share a stamp, at most `limit` requests are admitted in any half-open window. |
| RateLimiter.SharedStampsPassTheLimit | services/gateway/rate_limiter.py:29-48 | A concrete history in time order where requests sharing a stamp exceed the limit. |
| RateLimiter.TotalIsStamps | services/gateway/rate_limiter.py:41-54 | For every history in time order the count seen is the number of different stamps in the window. |
| RateLimiter.StampLimit | services/gateway/rate_limiter.py:25-71 | For every history at most `limit` different stamps are admitted in any half-open window. |
| PipelineInvariant.OneVerdict | services/ledger/main.py:25-69 | The ledger publishes one verdict per transaction: the recorded status, never PENDING. |
| PipelineInvariant.UpdateInPlace | services/gateway/settlement_consumer.py:20-31 | Over a verdict the unguarded overwrite writes the same verdict, and it touches no other row. |
| PipelineInvariant.StepKeepsInv | services/ledger/main.py:213-239 | Every step of the pipeline keeps its invariant: each hop acknowledges only what the next durable store already holds. |
| PipelineSteps.SubmitExactly | services/gateway/utils.py:28-49 | A new id and key with an amount that fits INTEGER add one PENDING transaction row and one PENDING outbox row. |
| PipelineSteps.RefundExactly | services/processor/main.py:96-103 | After a REJECTED or BLOCKED verdict the sender's window holds no entry with that id and amount; any other verdict changes no window; no other entry leaves any window. |
| PipelineSteps.ScoreExactly | services/processor/main.py:48-66 | A scoring leaves exactly the new member and the unexpired others in the sender's window, and its message has the numeric score of that window's total; none above 1,000,000 cents. |
| PipelineSteps.PostExactly | services/ledger/main.py:235-239 | A posting settles a new transaction exactly and leaves the ledger alone for a recorded one. |
| PipelineSteps.UpdateExactly | services/gateway/settlement_consumer.py:18-31 | Status and reason of that one row become the message's; an unknown id changes nothing. |
| PipelineSteps.GatewayRelayExactly | services/gateway/relay.py:43-67 | The commit marks exactly what was sent, a crash marks nothing and loses nothing. |
| PipelineSteps.LedgerRelayExactly | services/ledger/ledger_relay.py:37-54 | The same of the ledger's relay. |
| PipelineSteps.GatewayPublicationExactly | services/gateway/relay.py:45-48 | A pending row's own event goes to the end of one partition; nothing is marked before the commit. |
| PipelineSteps.LedgerPublicationExactly | services/ledger/ledger_relay.py:39-42 | The same of the ledger's relay. |
| PipelineSteps.RestartsExactly | services/processor/main.py:76-82 | Any consumer may stop at any time; it starts again at its committed offset and nothing else changes. |
| PipelineResults.NothingStranded | services/processor/main.py:62-69 | In every reachable state an accepted transaction of at most 1,000,000 cents is final at the gateway or held by a pending outbox row or an uncommitted offset. |
| PipelineResults.OversizedStaysPending | services/processor/main.py:71-74 | Above 1,000,000 cents a transaction is never final and never reaches the ledger. |
| PipelineResults.StrandedExactly | services/processor/main.py:71-74 | A run that leaves an accepted transaction neither final nor carried exists iff its amount is above 1,000,000. |
| PipelineResults.VerdictAgreement | services/gateway/settlement_consumer.py:18-31 | A gateway status is PENDING without a reason, or the status the ledger recorded for that id with the reason it published. |
| PipelineResults.VerdictStability | services/gateway/settlement_consumer.py:18-31 | Once not PENDING, status and reason never change in any continuation of the run. |
| PipelineResults.AckedIsRecorded | services/ledger/main.py:235-239 | A committed scored offset means the transaction is recorded in the ledger. |
| PipelineResults.PostNeverRaises | services/ledger/main.py:212-222 | If the positive starting money fits BIGINT, no message the pipeline delivers to the ledger makes a call raise on a column overflow. |
| PipelineProgress.AcceptedToFinal | services/gateway/relay.py:43-67 | From every reachable state, steps of the relays, the scorer, the ledger and the updater can bring an accepted transaction of at most 1,000,000 cents to its verdict. |
| PipelineProgress.VerdictIsReachableExactly | services/processor/main.py:62-74 | With a partition in each topic and starting money that fits BIGINT: from every reachable state some continuation makes an accepted transaction final iff its amount is at most 1,000,000 cents. |
| PipelineProgress.DueRefundCanHappen | services/processor/main.py:96-107 | While a REJECTED or BLOCKED verdict is not acknowledged by the processor, some continuation takes the transaction out of its sender's window at the same instant. |
| PipelineProgress.RowsCanBeMarked | services/gateway/relay.py:43-67 | From every reachable state each row of both outboxes can still be published and marked PROCESSED. |
| SpendBound.RefundKeeps | services/processor/main.py:96-103 | A rollback removes only the member of a transaction the ledger refused, so no completed transaction leaves its window early. |
| SpendBound.SpendIsBounded | services/processor/velocity_store.py:42-65 | For one sender, completed transactions whose approving scorings fall in one half-open window sum to at most 200,000 cents, and to at most 50,000 if the one scored last has no location. |
| SpendBound.CompletedWasApproved | services/ledger/main.py:84-119 | Every completed transaction has an approving scoring, so the bound covers all of them. |

## Left out

- Authentication, JWT, password hashing, the account and auth routers, connection pools, Docker and migrations: wrappers without a property of this depth.
- JSON and schema validation: a message is a datatype value or invalid; only the positive amount and the score range 0..100 are kept. A raw payload that is not JSON at all raises outside the `try` of `services/processor/main.py:43` and is not modelled.
- Account provisioning: an `AccountCreated` payload has no `from_account_id`, so `services/gateway/relay.py:46` fails on its row. Such rows are never marked (`OutboxRelay.Outbox.GatewayPass`), and no drain result is claimed for batches that hold one. No ledger code consumes the event.
- Publish order: the relay queries have no ORDER BY and the ledger relay sends without a key, so no order across outbox rows or settled messages is claimed.
- Liveness: after one consumer loop breaks, `asyncio.gather` still waits for the other; proved are safety, deadlock freedom, drain measures and that a verdict stays reachable, not that a service restarts or that a fair schedule takes the steps.
- Foreign keys never fail in the ledger, as both accounts are locked when entries are written; they are not modelled.
- PipelineResults.NothingStranded: a `create_ledger` call is one step of the pipeline, which `LedgerWorkers.Serializable` justifies, and a gateway request is one accepted row, which `GatewayIdempotency` covers.
- GatewayIdempotency.Idempotency: when the key vanishes between the failed lock and the read, a 202 carries no id; nothing is claimed of that answer. A 202 after an IntegrityError may also come from a transaction id reused under another key.
- Redis score rounding: nanosecond scores exceed the exact range of doubles; here they are integers. Clock skew, clocks that go back, loss of Redis data and the order of members with equal scores are not modelled either.
- Redelivery after a rejection: a raw message scored again after its rollback puts its member back until the window passes; no claim is made that a window holds no refused transaction.
- The texts of logs and responses, the `Retry-After` header, event ids, timestamps of rows, currency and metadata other than the location.
- AML, ClickHouse, device and geo-change weights, and account statuses: no code implements them.
