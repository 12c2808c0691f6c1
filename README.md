# gophermart: a Dafny model of the accrual engine and its neighbours

gophermart is a loyalty-points service. Users post order numbers; each order
is checked against a Luhn-style digit rule and stored as NEW. An accrual
engine asks an external accrual system about the order and writes the
answer's status and reward back to the store. Users can withdraw points
against what they have accrued.

This project models that core in Dafny:

- **The accrual engine** (`accrual.dfy`, module `Accrual`).
  - `Decide` is a pure case split on the lookup: HTTP 200 with a body, 204, or anything else. It gives the store write, the updated order struct and whether the in-flight mark is cleared.
  - The class `Service` holds the in-flight set, the overload counter and the tick lock. Its methods are Send, ProcessOrder, ProcessOrderOnOverload and the sweep (`ProcessTick`).
  - The HTTP lookup (`getResponse`) is a parameter `Lookup(code, body)`. The clock is a parameter `now`. The events-per-second comparison is a boolean parameter.
- **Bounded admission** (`overloadable_worker.dfy`, `active_pool.dfy`).
  - Goroutines are explicit. A started task sits in `pending` until a `Complete` step runs its handler and the deferred decrements.
  - The invariant is that every argument went to exactly one of the two handlers, once.
- **Order-number validation and the two user operations** (`order_number.dfy`, `gophermart.dfy`).
  - The RE2 pattern `^\s*\d+\s*$` is modelled by a scanner, proved equal to its declarative reading.
  - `CheckLuhn` is modelled as written. The Luhn formula (ISO/IEC 7812-1, Annex B) is defined separately, read from the right, and a corrected loop is proved against it.
  - `PostOrder` and `Withdraw` run over the store, the engine and a database transaction.
- **The order store** (`order_repo.dfy`, module `OrderStore`).
  - The "order" table is a map from number to row, and "withdrawn" is a list of rows.
  - Each SQL statement is a pure function on the table. The class `OrderRepo`'s methods are specified by those functions.
- **Utilities.**
  - The retry loop with its linear back-off (`retriable.dfy`).
  - `host:port` parsing and formatting (`config.dfy`).
  - The commit/rollback decision and the transaction wrapper (`transactor.dfy`).
  - Linear search and pointer helpers (`utils.dfy`).
  - `errors.Is` over the error values the core produces (`errors.dfy`).

Go values map to Dafny as follows:

- Strings are byte strings: each `char` of a `string` stands for one byte.
- Money (`float64`) is `real`.
- A `uuid.UUID` is a `nat`, with 0 as `uuid.Nil`. What `uuid.NewV6` returns is a parameter `generated` (None: generation failed).
- A `*T` that the source updates in place is returned as the updated value.

The call sites below disagree with the definitions they call. The model
follows each call site as written:

- The engine calls `SetOrderStatus(ctx, order.Number, status)`, by number (internal/services/accrual/accrual.go:103, 120). The repository method takes an order and writes by ID (internal/pg/order_repo.go:145-159). Both are modelled: `OrderStore.OrderRepo.SetOrderStatusByNumber` for the engine's call, `OrderStore.OrderRepo.SetOrderStatus` for the repository method.
- `PostOrder` wraps the order in an `AccrualEvent` (pkg/domain/gophermart.go:125-127), while `Send` takes the order. The model sends the stored order.
- activePool.go refers to `NewPool`, `Task` and `Pool.Wait`, which pool.go does not define. The pool is modelled from its uses: Run queues, Wait returns when everything queued has run.

The entity file that defines `entity.Order` and the status names is not part of this model. The order's fields and the four statuses are read from their uses in the core.

## Model

| member | source | states |
|---|---|---|
| Accrual.ExternalStatus | internal/services/accrual/accrual.go:88-101 | exactly REGISTERED, PROCESSING, INVALID and PROCESSED are mapped; the internal status carries the external name, except that REGISTERED becomes NEW |
| Accrual.Decide | internal/services/accrual/accrual.go:81-128 | a write happens iff the code is 204, or 200 with a body whose status is known; the in-flight mark stays iff the code is 200 and there is no body, the status is unknown or accrual <= 0; 204 writes INVALID; accrual <= 0 never updates the accrual column; the struct's accrual changes only together with a terminal status |
| Accrual.ApplyWrite | internal/services/accrual/accrual.go:102-123 | a write keeps the table's numbers; no write leaves it as it was; a status write by number changes only that number's row; an attribute write changes only rows carrying the struct's ID; well-formedness is kept |
| Accrual.Reconcile | internal/services/accrual/accrual.go:81-128 | handling an answer neither adds nor removes orders and never changes an order's ID or owner; well-formedness is kept |
| Accrual.UnknownAnswerWritesNothing | internal/services/accrual/accrual.go:83-101 | a 200 without body, an unknown status (also the empty status of an unparsable body) or any code other than 200 and 204 leaves the table unchanged |
| Accrual.NonPositiveAccrualWritesStatusOnly | internal/services/accrual/accrual.go:102-107 | with a known status and accrual <= 0, only the status of that number changes; every accrual, ID and owner is kept |
| Accrual.PositiveAccrualUpdatesAttributes | internal/services/accrual/accrual.go:109-117 | with accrual > 0, the row with the order's ID gets the new status, and the answer's accrual for PROCESSED/INVALID or the accrual the struct carried for NEW/PROCESSING; other rows are untouched |
| Accrual.NoContentInvalidates | internal/services/accrual/accrual.go:118-123 | a 204 marks the order INVALID and leaves every accrual and every other row as stored |
| Accrual.ReconcileIdempotent | internal/services/accrual/accrual.go:81-128 | handling the same answer twice leaves the store as handling it once |
| Accrual.TerminalAnswerLeavesSweep | internal/services/accrual/accrual.go:89-123 | after a 204, or a 200 with PROCESSED or INVALID, the order's row has a terminal status, so the sweep's NEW/PROCESSING query no longer returns it |
| Accrual.TerminalStatusCanRegress | internal/services/accrual/accrual.go:90-107 | statuses are not monotonic: a REGISTERED answer turns a PROCESSED row back into NEW |
| Accrual.NextOverload | internal/services/accrual/accrual.go:135-142 | the counter is incremented; when it reaches OverloadReportCount it restarts at 0 with the window start set to now; the report is logged only at a window's end and only when the rate is exceeded |
| Accrual.OverloadCounterBounded | internal/services/accrual/accrual.go:135-142 | the overload counter stays in [0, max(OverloadReportCount, 1)) |
| Accrual.OverloadsClosedForm | internal/services/accrual/accrual.go:135-142 | n overload events move the counter on by n modulo OverloadReportCount (to 0 when it is at most 1), and set the window start to now iff they reach the window's end |
| Accrual.SendEachAdmitsPrefix | internal/services/accrual/accrual.go:73-79 | sending a batch one order at a time is the closed form: with free = maxWorkers − pending, the first min(max(free, 0), n) orders start, the rest take the overload path in order, every order is submitted, and the counter advances by the number overloaded |
| Accrual.SendStepAccounted | internal/workers/overloadable_worker.go:27-41 | one Send keeps every submitted order accounted for exactly once: handled, pending or overloaded |
| Accrual.AdmitPrefixAccounted | internal/workers/overloadable_worker.go:27-41 | a whole batch keeps every submitted order accounted for exactly once |
| Accrual.SweptBatchSent | internal/services/accrual/accrual.go:185-201 | for a swept batch (distinct numbers, none in flight) the in-flight set gains exactly the numbers of the orders that started; nothing else is added or removed, and the accounting is kept |
| Accrual.Service.constructor | internal/services/accrual/accrual.go:49-60 | a service with an empty in-flight set, counter 0, window start now and a worker bounded by int32(MaxActiveWorkers) |
| Accrual.Service.Send | internal/services/accrual/accrual.go:73-79 | the order is marked in flight and submitted to the worker; nil is returned; a started order stays marked and pending; an overloaded one is unmarked and counted as an overload event |
| Accrual.Service.ProcessOrder | internal/services/accrual/accrual.go:81-128 | the store becomes the table Decide's write gives, the returned struct is Decide's, and the in-flight mark is removed exactly when Decide says so |
| Accrual.Service.ProcessOrderOnOverload | internal/services/accrual/accrual.go:130-143 | the number leaves the in-flight set and the counter and window follow NextOverload |
| Accrual.Service.RunTask | internal/workers/overloadable_worker.go:31-37 | a started task runs ProcessOrder on its order, and then the worker's counters drop by one and the order moves from pending to handled; the overload counter, its window, the tick lock, the overloaded and submitted lists and the withdrawals are unchanged |
| Accrual.Service.SendAll | internal/services/accrual/accrual.go:196-201 | the submitted, pending and overloaded lists, the in-flight set and the overload counter and window become what sending each order in turn gives; the tick lock and the handled list are unchanged |
| Accrual.Service.Sweep | internal/services/accrual/accrual.go:185-201 | the batch holds at most PollingCount distinct stored NEW/PROCESSING orders that were not in flight, read as stored; the first ones start while the worker has room and the rest are overloaded, in order, with the counter advanced by NextOverload once per overloaded order; the in-flight set gains exactly the started numbers; the handled list and the tick lock are unchanged |
| Accrual.Service.ProcessTick | internal/services/accrual/accrual.go:178-202 | a tick that finds the lock held returns nothing and leaves the service and its worker entirely unchanged; otherwise it does what Sweep states, handles nothing, and releases the lock |
| Workers.ToInt32 | internal/workers/overloadable_worker.go:21 | the result is in int32 range, congruent to the input modulo 2^32, and equal to it when it fits |
| Workers.OverloadableWorker.constructor | internal/workers/overloadable_worker.go:19-25 | a worker with no tasks and limit int32(maxWorkers) |
| Workers.OverloadableWorker.Add | internal/workers/overloadable_worker.go:27-41 | the argument starts a task iff fewer than maxWorkers run (never when maxWorkers <= 0), raising both counters; otherwise it goes to the overload handler; the counters never exceed the limit and every argument is accounted for once |
| Workers.OverloadableWorker.Complete | internal/workers/overloadable_worker.go:31-37 | a finished task's argument moves from pending to handled and both counters drop by one |
| Workers.OverloadableWorker.Wait | internal/workers/overloadable_worker.go:43-45 | on return nothing is pending, both counters are 0 and every pending argument has been handled |
| ActivePool.ActivePool.constructor | internal/workers/activePool.go:37-43 | a worker bounded by int32(MaxActiveWorkers) whose overload path is a pool of OverloadPoolSize |
| ActivePool.ActivePool.Run | internal/workers/activePool.go:45-59 | below the limit a task starts; otherwise it is queued in the pool; every task is accounted for on exactly one path |
| ActivePool.ActivePool.Wait | internal/workers/activePool.go:65-68 | on return every task given to Run has run exactly once, as an active task or in the pool |
| ActivePool.ActivePool.CompleteActive | internal/workers/activePool.go:49-55 | a started task finishes: it moves from pending to handled, the pool is untouched and every task stays accounted for |
| ActivePool.FixedPool.Run | internal/workers/pool.go:37-39 | a task handed over joins the end of the queue; nothing runs yet |
| ActivePool.FixedPool.Step | internal/workers/pool.go:28-32 | a pool worker takes the first queued task and runs it: the queue loses exactly that task and the run log gains it |
| ActivePool.FixedPool.Wait | internal/workers/activePool.go:67 | on return every queued task has run, in order |
| OrderNumber.MatchesPatternIff | pkg/domain/gophermart.go:69 | the scanner accepts exactly spaces, then one or more digits, then spaces (RE2's \s: tab, newline, form feed, carriage return, space) |
| OrderNumber.AtoiOneByte | pkg/domain/gophermart.go:207 | strconv.Atoi on one byte succeeds exactly for an ASCII digit, with its value |
| OrderNumber.CheckLuhn | pkg/domain/gophermart.go:200-221 | the verdict equals LuhnAsWritten: positions with i % 2 == len % 2 are doubled, and only a digit that exceeds 9 counts, as digit - 9; any non-digit byte, whitespace included, rejects |
| OrderNumber.LuhnPrefixSumFromRight | pkg/domain/gophermart.go:203-213 | doubling index i when i % 2 == len % 2, reading from the left, doubles every second digit from the right, starting with the second-to-last |
| OrderNumber.CheckLuhnIntended | pkg/domain/gophermart.go:200-221 | the loop with every digit added accepts exactly the numbers the Luhn formula accepts |
| OrderNumber.LuhnAcceptsNumber | tests/gophermart_test.go:77-83 | the test's order number 3413042486 satisfies the Luhn formula |
| OrderNumber.WrittenRejectsLuhnNumber | pkg/domain/gophermart.go:214-220 | CheckLuhn as written rejects 3413042486 (sum 7) |
| OrderNumber.LuhnRejectsNumber | pkg/domain/gophermart.go:200-221 | 3413042466 fails the Luhn formula |
| OrderNumber.WrittenRejectsNonLuhnNumber | pkg/domain/gophermart.go:214-220 | CheckLuhn as written rejects 3413042466 too (sum 3) |
| OrderNumber.WrittenAcceptsNonLuhnNumber | pkg/domain/gophermart.go:214-220 | CheckLuhn as written accepts "1", which the Luhn formula rejects |
| OrderNumber.PaddedNumberMatches | pkg/domain/gophermart.go:69 | the pattern admits a number with surrounding spaces (which CheckLuhn then rejects) |
| OrderNumber.CheckOrderNumber | pkg/domain/gophermart.go:189-198 | longer than 65535 gives (false, ErrOrderNumberTooLong); no pattern match gives (false, ErrBadOrderNumber); otherwise (CheckLuhn, nil); an accepted number is a non-empty run of digits without padding |
| Domain.WithdrawBody | pkg/domain/gophermart.go:165-177 | the transaction body records one withdrawal of the user's value only when the user's PROCESSED accruals exist and cover it, and reports ErrNotEnoughAccruals when they do not cover it; a failed body records nothing |
| Domain.WithdrawBodyIntended | tests/gophermart_test.go:210-213 | the corrected body records a withdrawal only when accruals less withdrawals cover it |
| Domain.WithdrawnSumAppend | internal/pg/order_repo.go:101-113 | one more withdrawal row raises the user's withdrawn total by its value, and nobody else's |
| Domain.IntendedBodyKeepsCovered | tests/gophermart_test.go:210-213 | under the corrected body a user's withdrawals stay covered by their accruals |
| Domain.OverdrawAsWritten | pkg/domain/gophermart.go:166-172 | as written, 100 accrued and 60 withdrawn still admits a withdrawal of 50, leaving 110 withdrawn against 100 accrued; the corrected body refuses it |
| Domain.WithdrawTransaction | internal/pg/pg.go:45-58 | as written, the statements run on the pool outside the transaction: success needs a clean body and a clean commit, and a row is recorded exactly when the body succeeded, whatever Commit returns |
| Domain.WithdrawTransactionIntended | internal/pg/pg.go:77-92 | run on the transaction, all or nothing: a failed withdrawal leaves "withdrawn" as it was, and a recorded one is covered by the balance |
| Domain.FailedCommitKeepsWithdrawal | internal/pg/pg.go:45-58 | a withdrawal whose Commit fails is reported as failed but is kept as written; run on the transaction it is not kept |
| Domain.Gophermart.PostOrder | pkg/domain/gophermart.go:112-132 | a rejected number returns its error before any insert or send; otherwise the order is inserted as NEW (a taken number classified as intended, see Findings), and it is sent to the engine exactly when the insert succeeded; the insert's error is returned |
| Domain.Gophermart.Withdraw | pkg/domain/gophermart.go:158-183 | a rejected number or a failed BEGIN returns its error and touches nothing; otherwise the body runs once and the result is WithdrawTransaction's: exactly one of Commit and Rollback is called, as the transactor decides, and the body's row stays even when Commit fails |
| Domain.Gophermart.WithdrawIntended | pkg/domain/gophermart.go:158-183 | the same steps, bounded by the balance and with the INSERT held in the transaction: a failed withdrawal records nothing, and every user's withdrawals stay covered by their accruals |
| OrderStore.InsertOrder | internal/pg/order_repo.go:32-60 | as intended: a nil ID is replaced by the generated one, and generation failure is an error; a failed insert writes nothing; it succeeds iff the ID and the number are free; a taken number gives ErrOrderCreatedByCurrentUser for the same user and ErrOrderCreatedByOtherUser otherwise; the new row has NULL accrual; well-formedness is kept |
| OrderStore.InsertOrderAsWritten | internal/pg/order_repo.go:44-57 | as written: the same table and the same successes as InsertOrder, but a taken number returns the wrapped constraint violation, and no error it returns is either duplicate sentinel |
| OrderStore.RepeatedPostUnclassified | tests/gophermart_test.go:90-96 | "1" passes the as-written number check, so a second post of it for the same user reaches the insert; that insert gives ErrOrderCreatedByCurrentUser as intended, and the wrapped violation as written |
| OrderStore.WithStatusById | internal/pg/order_repo.go:150-153 | only the status of the row with that ID changes |
| OrderStore.WithAttributesById | internal/pg/order_repo.go:165-168 | only status and accrual of the row with that ID change |
| OrderStore.WithStatusByNumber | internal/services/accrual/accrual.go:103 | only the status of the row with that number changes |
| OrderStore.AccrualsSumRemove | internal/pg/order_repo.go:89 | the accrual sum does not depend on the order in which rows are added |
| OrderStore.RecordWithdrawal | internal/pg/order_repo.go:115-132 | a nil ID is replaced by the generated one; a free ID adds exactly one row at the end; a failure adds none |
| OrderStore.OrderRepo.Insert | internal/pg/order_repo.go:32-60 | the table and the stored order become what InsertOrder gives (the intended duplicate classification) |
| OrderStore.OrderRepo.FindByNumber | internal/pg/order_repo.go:62-74 | an absent number gives ErrNotFound, a present one its row |
| OrderStore.OrderRepo.SetOrderStatus | internal/pg/order_repo.go:145-159 | a nil ID is refused with nothing written; otherwise the table becomes WithStatusById |
| OrderStore.OrderRepo.SetOrderStatusByNumber | internal/services/accrual/accrual.go:103 | the table becomes WithStatusByNumber |
| OrderStore.OrderRepo.UpdateAttributes | internal/pg/order_repo.go:160-174 | a nil ID is refused with nothing written; otherwise the table becomes WithAttributesById with the struct's status and accrual |
| OrderStore.OrderRepo.GetAccrualsSum | internal/pg/order_repo.go:87-99 | the loop returns the sum of the user's PROCESSED accruals, or the NULL-scan error when the user has none |
| OrderStore.OrderRepo.Withdraw | internal/pg/order_repo.go:115-132 | the withdrawals become what RecordWithdrawal gives |
| OrderStore.OrderRepo.GetOrdersByStatuses | internal/services/accrual/accrual.go:192 | at most limit distinct stored orders with a wanted status and an unexcluded number, read as stored, and all of them when fewer than limit come back |
| Retriable.Backoff | internal/utils/retriable.go:34-43 | the k-th wait is 1s + k*2s, never below the default timeout |
| Retriable.RetryEx | internal/utils/retriable.go:33-46 | 1 to 3 calls; the result is the last call's; every earlier call was retriable; fewer than 3 calls means the last was not; a wait follows every retriable call, the k-th lasting 1s + 2s*k |
| Retriable.Retry | internal/utils/retriable.go:52-57 | a non-retriable first result is returned at once with no wait; three retriable results mean three calls and waits of 1s, 3s and 5s |
| Config.Split | internal/config/config.go:191 | strings.Split gives one more part than there are separators, and no part holds one |
| Config.JoinSplit | internal/config/config.go:191 | joining the parts with the separator gives the input back |
| Config.Atoi | internal/config/config.go:197 | accepts exactly an optional sign followed by one or more ASCII digits whose value fits in int64, and returns that value, negated after a minus; the empty string is refused |
| Config.AtoiItoa | internal/config/config.go:122 | %d formatting of an int64 parses back to the same value |
| Config.ParseServerHostPort | internal/config/config.go:190-203 | more than one colon is an error; a parsed host has no colon |
| Config.ParseWithoutColon | internal/config/config.go:195-202 | an address without colon is all host, with port 80 |
| Config.ParseWithOneColon | internal/config/config.go:196-202 | host:port gives the host and Atoi of the port, or the port error |
| Config.FormatParseRoundTrip | internal/config/config.go:122 | the address LoadYaml formats from a colon-free host and an int64 port parses back to both |
| Config.UseDB | internal/config/config.go:205-207 | true iff the database URI is not empty |
| Transactor.CommitOrRollback | internal/pg/transactor.go:46-72 | commit iff no panic and no error; nil iff the commit succeeded; case by case: no panic and no error gives Commit's result, an error gives it alone or joined with the rollback error, a panic gives the panic error (with the rollback error), joined after the body's error when there is one |
| Transactor.CommitOrRollbackPgx | internal/pg/transactor.go:46-72 | exactly one of Commit and Rollback is called, once, as CommitOrRollback decides, and its result is returned |
| Transactor.Transaction | internal/pg/pg.go:77-92 | a failed BEGIN is returned with neither Commit nor Rollback called; otherwise exactly one of them is called, once, as CommitOrRollback decides, and its result is returned |
| Utils.Contains | internal/utils/utils.go:14-21 | true iff the element occurs in the slice |
| Utils.ContainsWhere | internal/utils/utils.go:23-30 | true iff some element satisfies the predicate |
| Utils.ContainsIsContainsWhere | internal/utils/utils.go:14-30 | Contains is ContainsWhere with the equality predicate |
| Utils.ToPointer | internal/utils/utils.go:42-44 | the pointer is never nil |
| Utils.FromPointer | internal/utils/utils.go:32-40 | nil gives the zero value, otherwise the pointee |
| Utils.FromToPointer | internal/utils/utils.go:32-44 | FromPointer undoes ToPointer |

## Left out

- HTTP handlers, JWT authentication, registration and login, logging, and the templates are not part of this model. GetOrders, GetBalance and GetWithdrawals are pass-throughs to the store and are not modelled.
- Goroutines, atomics and sync.Map: each step is one atomic method call. Races between the sweep and direct submissions are not modelled, and neither is the worker's check-then-increment race.
- The ticker and `runTicker` are not modelled: a tick is a call to `ProcessTick`. Clock values are parameters. `OverloadReportRPS` and the float division by elapsed seconds are a boolean parameter `rateExceeded`.
- `getResponse`'s HTTP request, body read and JSON decoding are not modelled: their outcome is the `Lookup` parameter. processError only logs.
- SQL execution is not modelled. The store never fails except by its constraints, by a missing ID, or by the NULL sum scan. Transport failures of Exec, the scan of an existing row, and the FindByNumber call inside Insert's duplicate path cannot fail here.
- The user foreign key and the `created_at` timestamps are not modelled.
- The nested-transaction path of `Pool.Transaction` is not modelled (the transaction already in the context is reused). Neither is the context key.
- Errors.Is: `retriablePostgresErr` has no Unwrap, so `errors.Is` and `errors.As` do not look inside it; the model follows that, and the store's constraint errors match only themselves.
- Domain.Gophermart.Withdraw: the body of the transaction cannot panic here. The panic path of the decision is modelled in Transactor.CommitOrRollback.
- The internals of pool.go (its channel and worker goroutines) are not modelled. A queued task runs when `FixedPool.Step` is called.
- float64 rounding is not modelled: money is `real`.
- Pointer aliasing is not modelled: an updated struct is returned to the caller rather than shared.
- GetWithdrawnSum is not part of the core. The corrected withdraw reads the withdrawn total with `WithdrawnSum`, counting no rows as 0.
- The standard libraries `strings.Split` and `strconv.Atoi` are modelled only for what the core passes them.

## Findings

| source | as written | input that shows it | evidently intended | confidence | as-written member | corrected member |
|---|---|---|---|---|---|---|
| pkg/domain/gophermart.go:214-217 | `sum += digit` sits inside `if digit > 9`, so only doubled digits above 9 count, as digit − 9 | "3413042486": the as-written sum is 7, so it is rejected; the test at tests/gophermart_test.go:77-83 posts it as a valid number, and its Luhn sum is 40 | every digit is added, doubled or not (the Luhn formula) | not executed | OrderNumber.WrittenRejectsLuhnNumber | OrderNumber.CheckLuhnIntended |
| internal/pg/order_repo.go:44-57 | the duplicate check uses `errors.As` on the error Exec returned, which is a `retriablePostgresErr` without Unwrap, so the check never matches | "1", which the as-written number check accepts, posted twice for one user: the second insert returns the wrapped unique violation, not the ErrOrderCreatedByCurrentUser that tests/gophermart_test.go:90-96 expects (the test's own number "3413042486" is stopped earlier by the as-written CheckLuhn) | a taken number is reported as ErrOrderCreatedByCurrentUser or ErrOrderCreatedByOtherUser | not executed | OrderStore.RepeatedPostUnclassified | OrderStore.InsertOrder |
| internal/pg/pg.go:45-58 | `Withdraw` opens a transaction, but `Pool.Exec` and `Pool.Query` run on the pool and ignore it, so the INSERT commits on its own | a body that records the row followed by a Commit that fails: the error is returned and the withdrawal stays | the INSERT is part of the transaction and disappears when it is not committed | not executed | Domain.FailedCommitKeepsWithdrawal | Domain.Gophermart.WithdrawIntended |
| pkg/domain/gophermart.go:166-172 | the value is compared with the user's total accruals, not with accruals less withdrawals | 100 accrued and 60 withdrawn: a withdrawal of 50 is accepted, leaving 110 withdrawn against 100 accrued | the balance bounds the withdrawal; tests/gophermart_test.go:210-213 expects Current = 120 − 13 = 107 | not executed | Domain.OverdrawAsWritten | Domain.Gophermart.WithdrawIntended |
