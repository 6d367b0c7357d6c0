# A verified model of the ledger

The ledger moves money between accounts in double entry. A transfer claims an
idempotency key, locks two account rows in ascending id order, checks currency and
funds, updates two balances, writes a credit and a debit entry, and commits; a
deferred trigger refuses a commit whose entries do not balance. Any number of
transfers run at once. This project models that system in Dafny and proves what its
module documentation argues for: linearizability, exactly-once effect, freedom from
deadlock and overdraft, conservation of money, and the soundness of the audit query.

`dafny verify dfyconfig.toml` checks the whole project.

## How the model is laid out

| part | modules |
|---|---|
| Rows, amounts, constraints, triggers | `LedgerTypes`, `Schema`, `OrderedRead` |
| The sequential ledger: what a request deserves when nothing else happens | `SequentialLedger`, `Admission`, `Conservation` |
| The concurrent protocol: one state machine for any number of calls | `Protocol`, `ProtocolInvariant`, `ProtocolSteps`, `ProtocolCommit`, `ProtocolMoves` |
| What follows for every schedule | `Guarantees`, `Failures`, `ReplayDecision`, `Progress`, `Drain` |
| What the row locks and the CHECK are each needed for | `Undefended`, `StaleReads`, `LateReceiver` |
| The service's own control flow, on tables updated in place | `Service` |
| The schema against arbitrary SQL writers | `Writers`, `SchemaAdmits` |
| The audit view and query | `Sweep` |
| Decimals, canonical text, request fingerprint | `MoneyArithmetic`, `CanonicalText`, `Fingerprint` |

**The protocol.** A `State` holds the committed tables, the connection pool, the
holders of unique-index entries and of row locks, and the sessions, each with a
program counter at the statement it executes next and a private write set. A schedule
is any sequence of labels: a call arrives, an account is opened, a session completes
its next statement, a statement fails for an outside reason, or a COMMIT takes effect
while its confirmation is lost. `Do` is total; a label that is not enabled changes
nothing. So "for every schedule" means every interleaving of every number of calls
with every pattern of outside failures. `Config` says whether the CHECK and the
`FOR UPDATE` locks are in place and how many connections the pool has.

**The history.** Each step that decides a call appends the call and its answer to
`history`. The core invariant is that the history is a legal run of the sequential
ledger and that replaying it yields the committed tables.

**The two implementations of one specification.** `Protocol` covers concurrency;
`Service` keeps the source's imperative form (methods, loops, fields updated in place)
and runs one call at a time against injected trouble. Both are proved against
`SequentialLedger.Decide` and `SequentialLedger.Post`.

**Amounts** are counted in units of 10^-8 in the protocol, which is what
`NUMERIC(20, 8)` stores; `MoneyArithmetic` ties those units to decimals with a 96-bit
mantissa and a scale up to 28.

## Assumptions

- Postgres at READ COMMITTED: a granted row lock and an UPDATE act on the newest
  committed row version; locks and unique-index entries are held to the end of the
  transaction; a second inserter of a key waits, then proceeds if the first rolled back
  or gets 23505 if it committed; deferred triggers run at COMMIT over what the
  transaction sees.
- A call that fails after BEGIN drops its database transaction, and the rollback is taken to
  be complete when the call returns. Only on the collision branch does the source await it
  (src/db/transfers.rs:183); elsewhere a returned call may hold its key, rows and connection
  for a moment longer.
- Row triggers are active: no session switches them off (`session_replication_role`).
- Ids drawn for rows are unused, and each database transaction has an xid of its own.
- SHA-256 is an arbitrary function. Only where a theorem says so is it assumed not to
  collide, and then only on the pre-images that occur in the run.

## Model

| member | source | states |
|---|---|---|
| Guarantees.Linearizable | src/db/transfers.rs:142-301 | With the row locks, in every schedule the committed tables are those of a legal sequential history, and every answer but a database error is the one the sequential ledger gives at that call's own event of the history, which lies inside the call. |
| Failures.ErrorsComeFromOutside | src/db/transfers.rs:118-140 | A call is answered with a database error exactly when a failure outside the protocol cannot be retried, or is its fourth; every failure before that was retried, and nothing else starts another attempt. A call that nothing outside disturbs never fails. |
| Failures.LastAttemptIsAnswered | src/db/transfers.rs:118-140 | Unless its failures are fatal in that sense, a call that has returned was answered as it is due at a point inside its last attempt, whatever it asked for. |
| Failures.UsedKeySettlesTheCall | src/db/transfers.rs:149-155 | A call whose key is committed when it arrives is answered Replayed with the stored id if its digest agrees, and with a conflict if not, unless its failures are fatal. |
| Failures.LostCommitTakesEffect | src/db/transfers.rs:115-117 | A COMMIT whose confirmation is lost has posted the transfer, and the next attempt of the request is due a replay of it. |
| StaleReads.EveryAnswerIsExplained | src/db/transfers.rs:202-243 | With either defence, row locks or not, every answer but a database error is the sequential ledger's at a point inside the call, provided the rows are locked, or the receiver's account exists when the call arrives, or the receiver is the one read first. |
| StaleReads.ExplanationsRespectRealTime | src/db/transfers.rs:202-243 | Those points, too, respect real time: a call that returned before another arrived has one that no point of the other precedes. |
| LateReceiver.LinearizableExactlyWhen | README.md:362-372 | For every call, over all pools and schedules, the answer is always right at a point inside the call if and only if the rows are locked, or the receiver's account is open on arrival, or the request is not a valid one whose sender is read first. |
| LateReceiver.LateReceiverIsUnexplained | src/db/transfers.rs:202-238 | The failing run, for every call of that kind: the sender is read and then topped up, the receiver's account is opened and read, and InsufficientFunds is answered although no point of the call calls for it. |
| Guarantees.RealTimeOrder | src/db/transfers.rs:31-35 | Those points respect real time: a call that returned before another arrived is decided before it. |
| Guarantees.ExactlyOnce | src/db/transfers.rs:112-140 | With same-key races, retries and lost confirmations: two successful answers for a key carry the same transaction with the same entries in the same order, two calls never both answer Created, keys are unique, and every transaction has exactly its credit and its debit. |
| Guarantees.CreatedOncePerKey | src/db/transfers.rs:56-64 | A legal history never answers Created again for a key it has already created. |
| Guarantees.PostedStays | migrations/0001_init.sql:181-184 | Whatever happens after a posting, its transaction reads back with the key, digest, description and time it was made with, one credit of the sender and one debit of the receiver for the requested amount. |
| Guarantees.CreatedMeansPosted | src/db/transfers.rs:240-279 | A call answered Created got back the transaction stored under its key: its own key, digest and description, and the credit of its sender and the debit of its receiver for its amount and currency, all with the ids and the time drawn for it. |
| ReplayDecision.HistoryReplays | src/db/transfers.rs:282-301 | An answer Replayed or Conflict points back to one earlier Created request of the same key; it is Replayed, with that id, exactly when the digests agree. |
| ReplayDecision.ReplayIffSameRequest | src/db/transfers.rs:285-301 | If the hash does not collide on what was hashed, a reused key is replayed exactly when the two requests name the same accounts, value, currency and description. |
| ReplayDecision.SuccessShowsTheRequest | src/db/transfers.rs:276-300 | Every successful answer, first or replayed, returns the transaction stored under the key, with this request's description, sender, receiver, amount and currency. |
| Guarantees.ReadsNeverMiss | src/db/transfers.rs:185-195 | The "key collided but no transaction was found" and "transaction not found" answers are never given, and what a successful call returned reads back identically ever after. |
| Guarantees.EitherDefencePreventsOverdraft | src/db/transfers.rs:7-48 | With the CHECK but no row locks, or row locks but no CHECK, no schedule makes an ordinary account negative. |
| Undefended.OverdraftExactlyWhenUndefended | README.md:362-372 | Overdraft is impossible for every pool size and schedule if and only if at least one of the two defences is in place; without both, two transfers that read the same balance drive an account below zero. |
| Undefended.DeadlockExactlyWithoutRowLocks | src/db/transfers.rs:36-42 | With or without the CHECK, no chain of waits of any length ever closes, whatever the pool size and schedule, if and only if the ordered row locks are taken; without them two opposite transfers deadlock. |
| Guarantees.MoneyIsConserved | migrations/0001_init.sql:294-371 | In every reachable state the balance cache agrees with the entry log, and entries and balances sum to zero in every currency. |
| Guarantees.AuditIsClean | migrations/0001_init.sql:294-371 | Whatever has been committed by the time each of the seven queries takes its own snapshot, the audit runs through with every row ok. |
| Guarantees.NoMoneyWithoutFunding | README.md:171-174 | While a currency has no funding account, all its balances are zero and no call in it was ever answered Created. |
| Guarantees.OnlyCommitWrites | src/db/transfers.rs:264-274 | A step of a call changes committed tables only when it is the COMMIT of a request the sequential ledger accepts at that moment, and then exactly as the sequential ledger would. |
| Guarantees.NothingIsLeaked | src/db/transfers.rs:66-71 | Once the database transaction of a call has ended, by commit, refusal, collision or failure, the call holds no connection, no key and no row lock, and no pending write survives. |
| Guarantees.RejectionsNeverHappened | src/db/transfers.rs:66-86 | Striking every rejected attempt from a history leaves a legal history with the same remaining answers and the same final tables. |
| ProtocolCommit.EveryScheduleKeepsInv | src/db/transfers.rs:142-301 | The protocol invariant (tables follow the history; each session holds exactly what its position entitles it to; pending writes are the committed balances plus the transfer's deltas) holds after every schedule. |
| ProtocolCommit.CommitIsPost | src/db/transfers.rs:240-274 | At COMMIT the balances read earlier are no longer looked at, yet the published tables are what the sequential ledger makes of the request in the state at commit time, and it would accept it then. |
| ProtocolCommit.EntryInsertsSucceed | migrations/0001_init.sql:99-118 | No entry insert of the transfer path violates the amount CHECK, the currency foreign key or the same-transaction trigger. |
| ProtocolCommit.DeferredChecksAlwaysPass | migrations/0001_init.sql:133-178 | The deferred balance trigger never refuses a transfer. |
| ProtocolCommit.LocksAreExclusive | src/db/transfers.rs:202-212 | Two calls never hold the same row lock or the same key. |
| Progress.WaitsAscend | src/db/transfers.rs:36-42 | Waits on connections, keys and rows always lead to a strictly higher rank. |
| Progress.WaitsNeverFormACycle | src/db/transfers.rs:202-212 | No chain of waits of any length leads back to where it started. |
| Progress.SomeCallCanStep | src/db/transfers.rs:164-212 | With a pool of at least one connection, whenever some call has not returned some call can take its next step. |
| Progress.FreshIdsExist | src/db/transfers.rs:166 | While fewer than 2^128 - 3 ids were issued, a transaction can always be begun. |
| Progress.PoolIsRespected | src/db/transfers.rs:164 | There are never more database transactions open than the pool has connections. |
| Progress.AtMostFourAttempts | src/db/transfers.rs:106-110 | No call is attempted more than four times. |
| Progress.StepDescends | src/db/transfers.rs:118-140 | Every step of a call, completed or failed, decreases the total of remaining steps and retries. |
| Progress.EveryCallReturns | src/db/transfers.rs:118-140 | Once no more calls arrive, the calls take fewer steps than a bound known in advance, whether or not accounts are still opened, and a run nobody can continue has answered every call. |
| Drain.DrainIsExact | tests/ledger.rs:704-765 | If N transfers of amount a with distinct keys debit an account holding B and nothing else touches it, every complete run without outside failures or receiver overflow creates exactly min(N, B / a). |
| Admission.AcceptedExactlyWhenConsistent | src/db/transfers.rs:157-243 | A request under fresh ids is accepted if and only if some consistent ledger records it, and that ledger is the only one: the checks turn away nothing valid and let in nothing invalid. |
| Admission.AnswersAreDue | src/db/transfers.rs:153-243 | Every answer is given exactly on its own conditions, each stated by itself: a replay or a conflict on a stored key, and otherwise the first that applies of self transfer, non-positive amount, smallest missing account, wrong currency (sender first), lack of funds, range, and creation. |
| SequentialLedger.LegalStatesAreConsistent | migrations/0001_init.sql:24-118 | Every state of a legal history has unique keys and ids, paired entries, sound references, a cache equal to the log, and no overdraft. |
| SequentialLedger.PostedIsReplayed | src/db/transfers.rs:112-117 | A request that was posted is replayed with the original id, under whatever ids it is sent again. |
| SequentialLedger.PairIsAccepted | migrations/0001_init.sql:139-169 | A credit and an equal debit in one currency net to zero and satisfy the balance trigger. |
| Schema.DomainCheckIsTriggerCheck | src/domain/mod.rs:92-105 | The domain check on a listing of the entries agrees with the database trigger on the stored rows, for every length and order. |
| Schema.VerdictNamesTheFault | migrations/0001_init.sql:147-169 | The trigger refuses for too few entries, or else for two currencies, or else for a sum that is not zero, exactly when that is so. |
| Schema.SignedSumPermutation | src/domain/mod.rs:98-103 | The signed sum does not depend on the order in which rows are read. |
| OrderedRead.ReadOrderIsDeterministic | src/db/transactions.rs:90-100 | Ordering by time and id reads the same rows back in the same order, in whatever order the storage holds them. |
| OrderedRead.DetailIsAscending | src/db/transactions.rs:90-110 | A transaction is read with exactly its own entries, oldest first, and those of one time in ascending order of their ids. |
| OrderedRead.DetailIsPermanent | src/db/transactions.rs:80-111 | A stored transaction reads back unchanged after any growth of the tables that adds no entry to it. |
| Conservation.SumByGroup | README.md:146-151 | Summing all rows equals summing the sums of any grouping of them. |
| Conservation.LocalBalanceIsGlobalBalance | README.md:146-151 | If the trigger accepts each transaction separately, the log nets to zero in every currency. |
| Conservation.BalancesSumToZero | README.md:146-151 | In a consistent ledger the cached balances of each currency sum to zero. |
| Conservation.WithoutFundingAllZero | migrations/0001_init.sql:47-50 | Without a funding account in a currency, non-negative balances that sum to zero are all zero. |
| Conservation.NoFundingNoTransferEver | README.md:171-174 | A history that ends without a funding account in a currency never accepted a transfer in it. |
| Sweep.ViewIsComplete | migrations/0001_init.sql:277-287 | The LEFT JOIN view skips no account, and derives debits minus credits, zero for accounts without entries. |
| Sweep.SweepIsSoundAndComplete | migrations/0001_init.sql:294-371 | On arbitrary tables, seen by each query as of its own snapshot, each row of the audit is ok exactly when its plain quantified statement holds there, and all are ok exactly when all seven statements hold. |
| Sweep.SweepFailsExactlyWhen | migrations/0001_init.sql:277-287 | The audit fails as a whole if and only if the sum over some account's entries does not fit NUMERIC(20, 8). |
| Sweep.SweepCountsRightly | migrations/0001_init.sql:294-371 | The number in each row is the net sum, or the number of unbalanced, misshapen or empty transactions, drifted or overdrawn accounts, or shared keys, each defined in plain terms. |
| Sweep.DriftRow | migrations/0001_init.sql:339-350 | The drift query finds nothing exactly when every cached balance equals the sum over the account's entries. |
| Sweep.KeysRow | migrations/0001_init.sql:360-369 | The GROUP BY ... HAVING query finds nothing exactly when no two rows share a key. |
| Sweep.ShapeRow | migrations/0001_init.sql:319-329 | The shape query finds nothing exactly when each transaction with entries has at least two, all in one currency. |
| Sweep.EmptyRow | migrations/0001_init.sql:331-337 | The anti-join finds nothing exactly when every transaction row has an entry. |
| Sweep.LocalRowImpliesGlobalRow | migrations/0001_init.sql:297-317 | On one and the same snapshot, the global row is ok whenever the per-transaction row is. |
| Sweep.SweepAgreesWithTrigger | migrations/0001_init.sql:306-329 | The two per-transaction rows are ok together exactly when the commit-time trigger would accept every transaction that has entries. |
| Sweep.SweepIsGreen | migrations/0001_init.sql:290-371 | If every query sees a consistent ledger, the view's cast does not overflow and all rows are ok. |
| Writers.SchemaHoldsAgainstAnyWriter | migrations/0001_init.sql:133-212 | After any interleaving of any INSERT, UPDATE, DELETE and TRUNCATE of any writers, each committed transaction with entries has at least two, in one currency, netting to zero; keys and ids are unique, references sound, and no ordinary account negative. |
| Writers.ParentIsOwn | migrations/0001_init.sql:181-212 | The same-transaction trigger lets an entry in only if its parent row is among the writer's own uncommitted rows, so the sum at COMMIT is the whole sum. |
| Writers.CommittedTransactionsAreFinal | migrations/0001_init.sql:215-238 | With row triggers active, no INSERT, UPDATE or DELETE of anyone ever extends, edits or removes a committed transaction; one that has entries keeps its row and entry set if and only if no TRUNCATE commits. |
| Writers.TruncateErasesEverything | migrations/0001_init.sql:215-238 | The losing run: a TRUNCATE of both append-only tables commits, and no trigger objects. |
| Writers.LogNetsToZero | README.md:146-154 | Whoever writes, the entry log nets to zero as a whole and in each currency. |
| Writers.SchemaGuaranteesFiveRows | migrations/0001_init.sql:294-371 | Against arbitrary writers, also between its queries, five rows of the audit can never turn bad. |
| Writers.EmptyTransactionIsPossible | migrations/0001_init.sql:175-178 | The trigger fires on entries only: a writer can commit a transaction row without entries, so the sixth row is not guaranteed by the schema alone. |
| Writers.DriftIsPossible | migrations/0001_init.sql:339-350 | No constraint ties the cache to the log: a writer can commit a drifted balance, so the seventh row is not guaranteed by the schema alone. |
| Writers.DriftIsReported | migrations/0001_init.sql:339-350 | That drift does not make the audit fail: it is reported, as one account. |
| SchemaAdmits.BalancedTransactionsCommit | migrations/0001_init.sql:133-212 | With nothing else open, a new transaction row and any entries of it under new ids, on open accounts of their currency, are committed exactly as they are if they balance, and not at all if they do not. |
| SchemaAdmits.EntriesLetIn | migrations/0001_init.sql:99-118 | An entry that does not have to wait is let in if and only if its amount is positive, its parent was inserted by the same database transaction, its account exists in its currency, and its id is new; otherwise its transaction is gone without a trace. |
| SchemaAdmits.TransactionsLetIn | migrations/0001_init.sql:68-92 | A transaction row that does not have to wait is let in if and only if its id and key are new, and is stored with its writer's xid. |
| SchemaAdmits.AccountsLetIn | migrations/0001_init.sql:24-61 | An account that does not have to wait is let in if and only if its id is new and its balance is no overdraft. |
| SchemaAdmits.BalancesMayChange | migrations/0001_init.sql:243-267 | An update of an account is let in if and only if it changes nothing but the balance, and not into an overdraft. |
| SchemaAdmits.AccountDeletionsAreRefused | migrations/0001_init.sql:245-248 | No account that is there can be deleted. |
| SchemaAdmits.TransactionChangesAreRefused | migrations/0001_init.sql:236-238 | A change or deletion of a transaction row is refused if and only if there is such a row. |
| SchemaAdmits.EntryChangesAreRefused | migrations/0001_init.sql:232-234 | A change or deletion of an entry is refused if and only if there is such an entry. |
| SchemaAdmits.BalancedWorkCommits | migrations/0001_init.sql:133-178 | A transaction commits if and only if each transaction row it inserted has no entries, or two or more in one currency that net to zero; then everything it sees is what everybody sees, and otherwise nothing changes. |
| Service.Ledger.OpenAccount | src/db/accounts.rs:38-63 | Opens an account with balance zero under an unused id, keeping every ledger invariant. |
| Service.Ledger.FindByIdempotencyKey | src/db/transactions.rs:63-77 | Reads the row stored under a key, or none. |
| Service.Ledger.ClaimKey | src/db/transfers.rs:164-200 | The claim collides exactly when the key is committed, and is pending otherwise. |
| Service.Ledger.FetchForUpdate | src/db/accounts.rs:98-109 | Reads an account row, or none, and adds it to the rows this transaction holds; `Rollback` and `Commit` give them up. |
| Service.Ledger.AdjustBalance | src/db/transfers.rs:303-326 | On a row that is held, records the new balance, or refuses it for range or for the CHECK, and says which account; fails only if the statement itself does; no other pending balance changes. |
| Service.Ledger.InsertEntry | src/db/transfers.rs:328-349 | The entry is pending exactly when the statement goes through and the constraints and the same-transaction trigger allow it. |
| Service.Ledger.DeferredChecks | migrations/0001_init.sql:124-178 | Passes exactly when each transaction that gained an entry is balanced. |
| Service.Ledger.Commit | src/db/transfers.rs:264-274 | The whole write set becomes part of the tables exactly when it balances and the statement goes through, and is confirmed exactly when, on top of that, the confirmation is not lost. |
| Service.LockAccounts | src/db/transfers.rs:202-212 | Holds exactly the two rows, taken in ascending id order, and returns them as they are; or names the first one missing in that order. |
| Service.CheckAccounts | src/db/transfers.rs:214-238 | Accepts exactly the right currencies and sufficient funds, and otherwise names the first failing check in the source's order. |
| Service.ReplayFound | src/db/transfers.rs:282-301 | A stored row is replayed when the digests agree and is a conflict when they do not. |
| Service.LockAndCheck | src/db/transfers.rs:202-238 | Passes only if the sequential ledger would go on to move the money, and otherwise refuses with its answer. |
| Service.Transact | src/db/transfers.rs:202-274 | From the claimed key to COMMIT: the outcome and the new tables are the sequential ledger's; a refusal changes nothing; it breaks off exactly when a statement failed or the confirmation of its commit was lost. |
| Service.ExecuteOnce | src/db/transfers.rs:142-280 | One attempt answers as the sequential ledger does and reports the stored transaction, or gives a database error, exactly when a statement failed or a confirmation was lost; the tables are untouched or hold exactly this posting. |
| Service.Execute | src/db/transfers.rs:118-140 | Another attempt follows exactly upon a retryable database error, up to the fourth, so a call that reaches calm weather before a fatal error does not fail; money moves at most once; a refusal is due to the last attempt and means that nothing moved; Created means that the last attempt moved it and shows the request; Replayed means that it had moved before; a success returns the one transaction stored under the key. |
| MoneyArithmetic.NewAcceptsExactlyStorable | src/domain/money.rs:114-134 | A decimal is accepted if and only if it is a whole multiple of 10^-8 below 10^12 in magnitude, its value is kept, its spelling too if it has at most eight places, and each error is given exactly in its own case. |
| MoneyArithmetic.ReportedScaleIsNeeded | src/domain/money.rs:118-126 | The number of places in the error is the least with which the amount can be written. |
| MoneyArithmetic.NormalizeKeepsValue | src/domain/money.rs:118-127 | Stripping trailing zeros never changes the value. |
| MoneyArithmetic.CheckedAddIsExact | src/domain/money.rs:171-174 | Same-currency addition never needs rounding, adds the exact values, and fails if and only if the true sum leaves the range. |
| MoneyArithmetic.CheckedSubIsExact | src/domain/money.rs:176-179 | The same for subtraction. |
| MoneyArithmetic.AddThenSubtract | src/domain/money.rs:171-179 | Subtracting what was added succeeds and restores the value. |
| MoneyArithmetic.CheckedLtIsOrder | src/domain/money.rs:181-186 | Comparison of two spellings is comparison of their values, and an error across currencies. |
| CanonicalText.DecimalRoundTrip | src/domain/money.rs:188-192 | Reading a printed decimal gives back the same mantissa and scale, for every sign and scale and for values below one. |
| CanonicalText.CanonicalRoundTrip | src/domain/money.rs:188-192 | Reading a canonical text recovers the normalised amount and the currency. |
| CanonicalText.CanonicalIdentifiesAmounts | src/domain/money.rs:188-192 | Two canonical texts are equal exactly when value and currency are, however the amounts were spelled. |
| CanonicalText.CanonicalIsPlain | src/domain/money.rs:188-192 | Canonical text is ASCII without a newline. |
| CanonicalText.CanonicalForm | src/domain/money.rs:188-192 | The text is an optional minus sign, digits without a needless leading zero, a fraction only if needed and without a trailing zero, a blank, and the currency code; zero has no sign. |
| CanonicalText.CanonicalIsTheOnlySpelling | src/domain/money.rs:188-192 | A text of that form that reads as the amount is the canonical text. |
| Fingerprint.RequestHash | src/domain/mod.rs:124-137 | Ten updates of a mutable hasher amount to hashing one pre-image. |
| Fingerprint.PreImageLayout | src/domain/mod.rs:124-137 | The bytes that are hashed: the version line, the sender's 16 bytes, the receiver's, the canonical amount and the description, each behind its tag, and a newline at the end. |
| Fingerprint.PreImageIdentifiesTerms | src/domain/mod.rs:117-137 | Two requests hash the same bytes if and only if they agree in both accounts, value, currency and description, even when descriptions contain newlines or field tags. |
| Fingerprint.DigestIdentifiesTerms | src/domain/mod.rs:124-137 | Unless the hash collides on these two pre-images, digests agree exactly when the requests do. |

## Where the code and its documentation differ

- The migration says its append-only rule holds even for a superuser connection
  (migrations/0001_init.sql:217-221). Its triggers are row triggers on UPDATE and DELETE,
  which TRUNCATE does not fire. `Writers.CommittedTransactionsAreFinal` gives the exact
  condition and `Writers.TruncateErasesEverything` the losing run.
- The repository says that, with the CHECK in place, removing `FOR UPDATE` changes nothing
  observable (README.md:362-365, tests/ledger.rs:767-771). That is proved for overdraft. It
  also holds of the answers whenever the receiver's account exists when the call arrives;
  `LateReceiver.LinearizableExactlyWhen` gives the exact condition and the run that breaks
  it. Deadlock freedom is lost (`Undefended.DeadlockExactlyWithoutRowLocks`).
- The COMMIT branch that looks for an overdraft violation (src/db/transfers.rs:267-272) has
  no counterpart here: a CHECK cannot be deferred, so the model checks it at the UPDATE only.
  That the branch is dead is built in, not proved.

## Left out

- HTTP handlers, JSON formats, configuration, tracing, health probes, URL redaction and the mapping of errors to status codes.
- SHA-256 itself: an arbitrary function stands for it.
- Postgres internals: row versions, predicate locks, savepoints, replication, and isolation levels above READ COMMITTED.
- DDL that drops a trigger or constraint, sessions that disable triggers with `session_replication_role`, and writers that supply `created_xid` themselves: outside what the schema guarantees.
- Locks that mere reads take on a table: a TRUNCATE waits for writers only, which allows more runs than Postgres does.
- Generation of ids and clocks: ids are drawn when the transaction begins, are assumed unused, and all rows of one transaction share one timestamp.
- The ISO 4217 table: a currency is three capital letters, as in the schema.
- The CHECK on account names and on the digest length: they cannot fail on the transfer path.
- Negative zero of the decimal library, and its rounding addition: addition returns nothing where 96 bits do not hold the sum, which is proved never to happen to amounts.
- Overflow of the decimal sum in the domain's balance check on very long entry lists: the sum is an unbounded integer here.
- The text of the audit's `detail` column: only the number in it is modelled.
- A pool read is one step that takes a connection and gives it back; timeouts on acquiring one are outside failures.
- Guarantees.Linearizable: names an event of the call, which the variant without row locks cannot do for a refusal that rests on an earlier read; `StaleReads.EveryAnswerIsExplained` covers that variant.
- Guarantees.NothingIsLeaked: does not model the moment between dropping a database transaction and the end of its rollback.
- Progress.SomeCallCanStep: does not cover the variant without row locks, because the two updates then take their row locks in sender, receiver order; `Undefended.DeadlockExactlyWithoutRowLocks` shows that they deadlock.
- Drain.DrainIsExact: does not cover runs with outside failures, which may use up all of a call's attempts.
- Service.Execute: runs one call at a time; outside failures, lost confirmations and a key committed by a rival just after the fast-path read are injected, and full interleaving is the subject of `Protocol`.
- Writers.SchemaHoldsAgainstAnyWriter: says nothing about the balance cache or empty transactions, which the schema alone does not protect; the two counterexamples show it.
