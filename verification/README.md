# A model of the stateful Rust layer

The repository offers SQLite to Node through a vendored copy of rusqlite. This project models the Rust code that
keeps state between the callers and the C library, and proves what that code guarantees over every run. SQLite itself
is an abstract machine: what a call may do is given by arbitrary functions or by an arbitrary script of outcomes, so
every theorem holds for every database, every text and every failure.

| file | what it models |
|---|---|
| `Sqlite.dfy` | the C library: handles with text, bindings and an execution position; `prepare`, `step`, `reset`, `bind`, `finalize` |
| `Statement.dfy` | binding, executing and iterating one statement; `Rows` |
| `StatementResults.dfy` | when binding, executing and querying succeed, what they report and what they leave |
| `StatementCache.dfy` | the statement cache: take, return, evict, resize, flush |
| `CachedRuns.dfy` | whole runs of a connection with its cache, next to the same runs with every statement compiled afresh |
| `Recency.dfy` | what the cache keeps and that it is used; least-recently-used eviction over runs |
| `UnlockNotify.dfy` | waiters and callback threads of a shared-cache lock, every interleaving |
| `LockedRetry.dfy` | the retry loops that wait for such a lock |
| `Interrupt.dfy` | interrupting threads against `close` |
| `Session.dfy`, `Transactions.dfy`, `Savepoints.dfy` | autocommit, transaction handles, nested savepoint callbacks |
| `Aggregates.dfy` | the aggregate and window callbacks and the accumulator they own |
| `Batch.dfy` | splitting a text into statements |
| `Pragma.dfy` | printing a PRAGMA, and the lexical rules that read it back |
| `Backup.dfy` | the backup, restore and run-to-completion loops |
| `RowMaps.dfy` | rows as maps from column names |
| `AsciiNames.dfy`, `Wrappers.dfy` | name comparison; optional values and results |

An operation is usually given twice: as a function on states, and as a method of a class that does it call by call and
is proved to end in the state the function gives. The theorems are about the functions and about runs of them.

## Where the code and its documentation part

- **The cache can be noticed.** A cached statement is handed out without compiling, so once a schema change makes its
  text invalid, `prepare_cached` still succeeds where a fresh prepare fails. `CachedRuns.CacheIsInvisible` proves that
  this is the only way: a run looks the same with and without the cache if and only if every hit is on a text that would
  still compile. `CachedRuns.DroppedTableIsNoticed` is the shortest run that shows it.
- **A callback's error stops at the savepoint.** After a throwing callback the savepoint is rolled back and the call
  reports success (`Savepoints.ThrownErrorsAreSwallowed`).
- **A finalizer whose ROLLBACK fails leaves the transaction open** and no handle can end it
  (`Transactions.FailedFinalizerAbandons`); `Transactions.HandlesOwnTheTransaction` gives all the ways this happens.
- **Some PRAGMA arguments do not survive printing.** An empty schema name is printed bare, as nothing; a NUL inside
  quotes ends the text; a bare name that begins with a byte order mark loses it. `Pragmas.PragmaRoundTrip` proves the
  round trip for exactly the others.
- **`MultipleStatement` gives way to a later error.** `prepare_with_flags` looks at the whole rest of the text, and a
  segment there that does not compile decides the error (`Batches.OneStatementExactly`).
- **A row that does not convert ends an iteration silently.** `get` reports the error (`RowMaps.Iterate`).
- **An inverse may follow a null pointer.** `call_boxed_inverse` does not look whether the pointer is null.
  `Aggregates.AccumulatorFreedOnce` says exactly when that matters: when an inverse comes before any successful `init`.

## Model

| member | source | states |
|---|---|---|
| `Statements.Statement.BindParameter` | crates/rusqlite/src/statement.rs:615-671 | An argument that does not convert, or of a kind that cannot be bound, is reported without touching the handle; any other, zero-blobs and pointers included, is one bind call, its code an error unless it is OK. |
| `Statements.Statement.BindParameters` | crates/rusqlite/src/statement.rs:475-494 | The loop ends where the loop-free account says: refused on a busy statement, stopped at the first argument that does not convert with nothing more bound, or at the first refused value with that parameter NULL and later ones untouched, stopped one past the last parameter, or all bound and the counts compared. |
| `Statements.Statement.BindParametersNamed` | crates/rusqlite/src/statement.rs:507-517 | Pairs are bound in the order given up to the first unknown name, argument that does not convert, or refused value. |
| `Statements.NamedBindingKeepsTheRest` | crates/rusqlite/src/statement.rs:507-517 | A successful named binding leaves each parameter at the last value given for it, and every unnamed one at what it held before. |
| `Statements.Statement.ExecuteWithBoundParameters` | crates/rusqlite/src/statement.rs:674-686 | A read-only statement with columns is refused unstepped; otherwise one step and one reset whatever the outcome, the step's error before the reset's, and a row is an error. |
| `Statements.Statement.ExecuteWith` | crates/rusqlite/src/statement.rs:108-111 | Binding, then execution; a binding error leaves the statement unstepped. |
| `Statements.Statement.Insert` | crates/rusqlite/src/statement.rs:127-133 | The row id exactly when one row changed, otherwise the number of changed rows as an error. |
| `Statements.Statement.IntoRaw` | crates/rusqlite/src/statement.rs:752-756 | The raw statement moves out and null is left, so the destructor finalizes nothing. |
| `Statements.Statement.Finalize` | crates/rusqlite/src/statement.rs:689-693 | The handle is finalized once and null is left behind. |
| `Statements.Statement.QueryRowWith` | crates/rusqlite/src/statement.rs:370-378 | At most one step, the mapper on the first row, and a reset on every path. |
| `Statements.Statement.ExistsWith` | crates/rusqlite/src/statement.rs:349-353 | At most one step and a reset on every path; true when it gave a row. |
| `Statements.Statement.QueryOneWith` | crates/rusqlite/src/statement.rs:394-405 | The second step comes only after the mapper accepted the first row; every path resets. |
| `Statements.Rows.Reset` | crates/rusqlite/src/row.rs:17-23 | The statement is reset once and let go; a second reset does nothing. |
| `Statements.Rows.Next` | crates/rusqlite/src/row.rs:215-237 | One step while attached; at the end or on an error the statement is reset and let go, and the current row is gone. |
| `Statements.Rows.Drop` | crates/rusqlite/src/row.rs:109-115 | Dropping resets a statement still attached. |
| `Statements.NextIsFused` | crates/rusqlite/src/row.rs:215-237 | Over any script, `next` gives exactly the rows before the first Done or error, then that ending once, then no row for ever, and steps no more. |
| `Statements.DroppedRowsRest` | crates/rusqlite/src/row.rs:109-115 | Dropping the rows after any number of calls of `next` leaves the statement at its start. |
| `Statements.QueryOneExactly` | crates/rusqlite/src/statement.rs:394-405 | `query_one` succeeds if and only if binding does, the steps are one row then Done, the mapper accepts the row, and the reset reports nothing. |
| `Statements.FirstOutcomeDecides` | crates/rusqlite/src/statement.rs:349-378 | `query_row` and `exists` are decided by the first step alone and leave the statement stepped once and reset. |
| `StatementResults.BindsExactly` | crates/rusqlite/src/statement.rs:475-494 | Positional binding succeeds if and only if there are as many arguments as parameters, each binds, and the statement is at rest; each parameter then holds its own argument and nothing else changed. |
| `StatementResults.WrongCount` | crates/rusqlite/src/statement.rs:489-493 | With the wrong number of good arguments the error names the number given, or one more than expected when there are too many, and those with a parameter are bound. |
| `StatementResults.FirstBadIsReported` | crates/rusqlite/src/statement.rs:482-488 | The first bad argument is the one reported; those before it are bound, a refused one leaves its parameter NULL, later parameters keep their values. |
| `StatementResults.BusyIsMisused` | crates/rusqlite/src/statement.rs:482-488 | A statement that is not at rest takes no argument: the first one's own error or misuse is reported, and nothing changes. |
| `StatementResults.NamedReportsTheFirst` | crates/rusqlite/src/statement.rs:507-517 | Named binding reports the first pair that is wrong for the statement as it was, and succeeds if and only if none is. |
| `StatementResults.ExecutesExactly` | crates/rusqlite/src/statement.rs:674-686 | Execution succeeds if and only if the statement is no query, its step is Done and its reset reports nothing, with the count of changes as of then; the order of the errors and the state left. |
| `StatementResults.BindErrorsStop` | crates/rusqlite/src/statement.rs:349-405 | Arguments that do not bind stop `execute`, `query_row`, `exists` and `query_one` before any step or reset. |
| `StatementResults.QueryOneReports` | crates/rusqlite/src/statement.rs:394-405 | No row, a row the mapper refused and a second row each have their own error; there is a second step if and only if the mapper took the first row; the statement is reset on every path. |
| `StatementCaches.StatementCache.constructor` | crates/rusqlite/src/cache.rs:120-122 | A new cache is empty with the capacity given. |
| `StatementCaches.StatementCache.GetStatement` | crates/rusqlite/src/cache.rs:136-151 | A hit takes the entry out, a miss compiles the trimmed text; the cache keeps its invariant with the handle now the caller's. |
| `StatementCaches.StatementCache.InsertEntry` | crates/rusqlite/src/cache.rs:161 | The insert finalizes the old value of the key, or else the oldest entry when there is one too many, and the new one is the youngest. |
| `StatementCaches.StatementCache.Return` | crates/rusqlite/src/cache.rs:154-168 | Null is ignored; otherwise bindings are cleared and the statement becomes the youngest entry, an old entry of its key or else the oldest one over capacity being finalized; the invariant is kept. |
| `StatementCaches.StatementCache.Resize` | crates/rusqlite/src/cache.rs:125-127 | The oldest entries over the new capacity are finalized, in order. |
| `StatementCaches.StatementCache.FlushAll` | crates/rusqlite/src/cache.rs:171-174 | Every entry is finalized once, callers' statements are untouched. |
| `StatementCaches.TrimExactly` | crates/rusqlite/src/cache.rs:141 | A key is its text without the blanks at either end and nothing else removed. |
| `StatementCaches.PaddingIsIgnored` | crates/rusqlite/src/cache.rs:141-146 | Texts that differ only in the blanks around them share a key, so one finds the other's statement. |
| `StatementCaches.GetGivesFresh` | crates/rusqlite/src/cache.rs:136-151 | Whatever a get returns is keyed by the trimmed text, owned by no one else, and in the state a compile of that text leaves: all bindings NULL, at its start. |
| `StatementCaches.CacheStmtKeeps` | crates/rusqlite/src/cache.rs:154-168 | Returning a statement that is at rest keeps every entry as freshly compiled from its own key, one entry a key, within capacity, and nobody else's handle changes. |
| `StatementCaches.EvictKeeps` | crates/rusqlite/src/cache.rs:171-174 | Finalizing the oldest entries keeps the invariant and leaves callers' handles alone. |
| `Recency.ReturnedIsYoungest` | crates/rusqlite/src/cache.rs:154-168 | A returned statement is the youngest entry if the cache has room for any; another key goes only if it is the oldest of a full cache the returned key is new to. |
| `Recency.ResizeKeepsTheYoungest` | crates/rusqlite/src/cache.rs:125-127 | Resizing keeps as many of the most recently returned as fit, in order. |
| `CachedRuns.StepKeeps` | crates/rusqlite/src/cache.rs:91-174 | Each operation of a caller keeps: handles in the cache and in callers' hands are disjoint, open and all the open ones, cached ones are fresh, and a held one without rows is at rest. |
| `CachedRuns.HandlesConserved` | crates/rusqlite/src/cache.rs:91-174 | After any run every handle ever created, those of refused texts included, is in exactly one of cache, one live statement, or the finalized list; none is finalized twice or when not open; every non-null handle a caller holds is open; one entry a key and no more than capacity. |
| `CachedRuns.CloseExactly` | crates/rusqlite/src/lib.rs:803-808 | After any run, flushing and closing succeeds if and only if no caller holds a statement that compiled to something. |
| `CachedRuns.RunAgrees` | crates/rusqlite/src/cache.rs:136-168 | From any related states the run with the cache and the run without show the same if and only if every hit is on a text that would compile. |
| `CachedRuns.CacheIsInvisible` | crates/rusqlite/src/cache.rs:136-168 | The same from a new connection: any mix of prepare, cached prepare, positional and named binding, execution, rows, clearing, discard, drop, flush and resize. |
| `CachedRuns.StableCacheIsInvisible` | crates/rusqlite/src/cache.rs:136-168 | While no change of the database changes whether a text compiles, no run can notice the cache. |
| `CachedRuns.DroppedTableIsNoticed` | crates/rusqlite/src/cache.rs:143-146 | A run of four operations, with a dropped table, that shows otherwise. |
| `Recency.DroppedIsReused` | crates/rusqlite/src/cache.rs:91-168 | In any state runs reach, a cached statement dropped and asked for again is the same handle and nothing is compiled; with no room it is finalized. |
| `CachedRuns.QueriesYield` | crates/rusqlite/src/row.rs:215-237 | In a run, a query drops the caller's earlier rows, binds, and then yields what iterating from there yields; one whose arguments do not bind yields nothing. |
| `Recency.LargerCacheHitsToo` | crates/rusqlite/src/cache.rs:125-168 | After the same run the entries of a cache of capacity n are the most recently returned entries of one of capacity m >= n, so the larger hits whenever the smaller does. |
| `UnlockNotify.StepKeeps` | crates/rusqlite/src/unlock_notify.rs:22-48 | Each atomic step of any waiter or callback thread keeps the protocol's invariant. |
| `UnlockNotify.UnlockNotifyIsSafe` | crates/rusqlite/src/unlock_notify.rs:22-48 | In every reachable state no callback has touched a released notification, a waiter past its wait has had its flag set, and one whose callback is over is not asleep. |
| `UnlockNotify.CalledBackCanMove` | crates/rusqlite/src/unlock_notify.rs:28-33 | Once its callback is over a waiter that has not returned is never blocked, also when the callback came before the wait. |
| `UnlockNotify.WaiterReturns` | crates/rusqlite/src/unlock_notify.rs:69-84 | From then on it has returned after at most four of its own steps, whatever the others do in between. |
| `UnlockNotify.CallbackCanMove` | crates/rusqlite/src/unlock_notify.rs:42-48 | A callback thread with work left can move, or the waiter that holds the mutex can release it at once. |
| `UnlockNotify.RegistrationDecides` | crates/rusqlite/src/unlock_notify.rs:69-84 | Registered, a waiter is owed a callback and goes on to wait; refused, it is owed none. |
| `UnlockNotify.RefusedStays` | crates/rusqlite/src/unlock_notify.rs:80-83 | A refused waiter takes no step of the wait and no callback touches it, whatever the others do. |
| `UnlockNotify.CallbackCompletes` | crates/rusqlite/src/unlock_notify.rs:22-48 | From any state in which a registered waiter's mutex is free, a callback can be given it and run to its end, after which the waiter has been called back. |
| `UnlockNotify.UnsetFlagSleeps` | crates/rusqlite/src/unlock_notify.rs:28-33 | While its flag is not set a waiter that looks goes to sleep, and a wakeup for no reason only makes it look again. |
| `LockedRetry.Answer` | crates/rusqlite/src/unlock_notify.rs:50-84 | The deciding attempt's own code, unless it was a lock; a shared-cache lock is reported only when registering for its end was refused, and then with the refusal's code. |
| `LockedRetry.StepRetrying` | crates/rusqlite/src/raw_statement.rs:151-177 | The loop with its early exit returns that answer and makes exactly the calls of as many full rounds as there were completed waits. |
| `LockedRetry.PrepareRetrying` | crates/rusqlite/src/inner_connection.rs:232-253 | So does the loop around prepare, which has neither the early exit nor the reset. |
| `LockedRetry.RetryFollowsWaitAndReset` | crates/rusqlite/src/raw_statement.rs:151-177 | Every step call after the first comes right after a registration, a completed wait and a reset. |
| `LockedRetry.CallsAreCounted` | crates/rusqlite/src/raw_statement.rs:151-177 | One try for each attempt up to the deciding one, one wait, and for a step one reset, for each before it, one registration for each lock met. |
| `LockedRetry.LockCodes` | crates/rusqlite/src/unlock_notify.rs:50-54 | A lock is a code whose low byte is 6 where it or the extended code is the shared cache's. |
| `InterruptAndClose.StepKeeps` | crates/rusqlite/src/inner_connection.rs:139-167 | Each atomic step of `close` or of an interrupting thread keeps the invariant. |
| `InterruptAndClose.InterruptAndCloseAreSafe` | crates/rusqlite/src/inner_connection.rs:139-167 | In every reachable state: the shared pointer is the connection's own while the mutex is free (null if not owned), no interrupt overlaps or follows a close, the assertion holds, at most one close succeeded, and outside `close` the connection is wholly open or wholly shut. |
| `InterruptAndClose.InterruptReaches` | crates/rusqlite/src/lib.rs:1283-1288 | In every reachable state a thread going on from the mutex calls `sqlite3_interrupt` if and only if the connection is an owned one that has not been closed. |
| `InterruptAndClose.InterrupterLeaves` | crates/rusqlite/src/lib.rs:1283-1288 | A thread that meets no other is out of `interrupt` after at most four steps with everything as it was. |
| `InterruptAndClose.CloseWithoutHandle` | crates/rusqlite/src/inner_connection.rs:140-155 | Closing what is closed does nothing; closing a borrowed handle forgets it and makes no C call. |
| `InterruptAndClose.FailedCloseChangesNothing` | crates/rusqlite/src/inner_connection.rs:139-167 | From an open connection, through any interleaving and any number of calls of `close`, every pointer is as it was if and only if no `sqlite3_close` has succeeded. |
| `InterruptAndClose.NextAttemptDecides` | crates/rusqlite/src/inner_connection.rs:139-167 | Whatever failed before, one more attempt can run and shuts the connection or leaves it exactly as it was. |
| `Transactions.Transaction.CommitTransaction` | src/transaction.rs:110-123 | A finished handle is refused; a failed COMMIT changes nothing; a successful one finishes the handle. |
| `Transactions.Transaction.RollbackTransaction` | src/transaction.rs:125-138 | The same for ROLLBACK. |
| `Transactions.Transaction.SetDropBehavior` | src/transaction.rs:145-148 | Only the behaviour changes. |
| `Transactions.Transaction.Dispose` | src/transaction.rs:150-170 | Nothing on a finished handle; otherwise what the behaviour says: commit, roll back, finish without a word, or report without finishing. |
| `Transactions.Transaction.Finalize` | src/transaction.rs:635-657 | Does nothing on a finished handle or in autocommit; otherwise the connection is in autocommit afterwards if and only if the finalizer's own COMMIT or ROLLBACK got through. |
| `Transactions.StartTransaction` | src/connection.rs:1031-1058 | A handle, unfinished, if and only if BEGIN succeeded in autocommit; deferred and rolled back when dropped unless the options say otherwise. |
| `Transactions.EndReports` | src/transaction.rs:110-138 | `commit` and `rollback` refuse a finished handle, succeed if and only if a transaction is open and SQLite manages it, and only then change anything. |
| `Transactions.DisposeReports` | src/transaction.rs:150-170 | `dispose` is Ok if and only if the handle is finished, ignored, or its own COMMIT or ROLLBACK gets through; a finished handle and its session are left alone; Panic has its own error and finishes nothing. |
| `Transactions.FinalizeReports` | src/transaction.rs:635-657 | A failed COMMIT is reported whatever the ROLLBACK after it does, a failed ROLLBACK never is, Panic panics, and otherwise it is Ok; what each does to the session. |
| `Transactions.HistoryGrows` | src/transaction.rs:110-170 | Each event adds to the history exactly the statement its handle, its behaviour and the autocommit flag call for. |
| `Transactions.DurableIsWhatLasts` | src/transaction.rs:110-170 | For any history, the durable state is the initial one plus the writes outside transactions and those of each committed one. |
| `Transactions.TransactionsAreAtomic` | src/transaction.rs:110-170 | So after any run over any number of handles with any failures, with nothing undecided in autocommit. |
| `Transactions.CommitsAreReported` | src/transaction.rs:110-123 | A COMMIT enters the history in exactly the events where an unfinished handle's goes through, and `commit` and `dispose` report it. |
| `Transactions.OneOwnerOrAbandoned` | src/transaction.rs:110-170 | At most one handle is unfinished and it owns the open transaction; a transaction without a handle exists if and only if some event of the run abandoned it. |
| `Transactions.HandlesOwnTheTransaction` | src/transaction.rs:635-657 | The same from a new connection. |
| `Transactions.OrphanedForGood` | src/transaction.rs:158-161 | Once abandoned, no handle operation ends the transaction and nothing more becomes durable. |
| `Transactions.FailedFinalizerAbandons` | src/transaction.rs:645-647 | With only the default behaviour, a failed ROLLBACK in the finalizer abandons the transaction. |
| `Savepoints.SavepointGuard.CommitGuard` | crates/rusqlite/src/transaction.rs:314-318 | RELEASE of the guard's name; the guard is committed if and only if it succeeds. |
| `Savepoints.SavepointGuard.RollbackGuard` | crates/rusqlite/src/transaction.rs:327-331 | ROLLBACK TO the guard's name; the guard is not committed by it. |
| `Savepoints.SavepointGuard.Drop` | crates/rusqlite/src/transaction.rs:344-374 | A guard not committed rolls back to its savepoint and, if that succeeds, releases it, each call succeeding or not. |
| `Savepoints.LeaveCallback` | src/connection.rs:1105-1110 | RELEASE after a good callback, ROLLBACK TO after a bad one, then the destructor. |
| `Savepoints.SavepointWithName` | src/connection.rs:1089-1111 | The call, its callback and the guard's destructor leave the connection where the tree's meaning says. |
| `Savepoints.RunCallback` | src/connection.rs:1105-1108 | A callback is any sequence of writes and further calls, each run where the one before left off. |
| `Savepoints.BracketRuns` | src/connection.rs:1064-1111 | One call over a callback whose own calls close: it keeps the callback's effect or none of it and one savepoint level comes and goes, if and only if its RELEASE succeeds or else both of its destructor's calls do; otherwise just its own savepoint stays. It reports success if and only if its RELEASE, or after a throw its ROLLBACK TO, succeeds. |
| `Savepoints.BracketsAreAtomic` | src/connection.rs:1064-1111 | For any tree of calls that close, any failures and any repeated names the connection sees the recursive all-or-nothing meaning, so does the disk if it started in autocommit, and the savepoint stack is as it was. |
| `Savepoints.ThrownErrorsAreSwallowed` | src/connection.rs:1105-1110 | A throwing callback has no effect and the call reports success. |
| `Savepoints.LeftoverCapturesRelease` | crates/rusqlite/src/transaction.rs:344-357 | Without the destructor's RELEASE an inner savepoint of the same name would take the outer RELEASE and leave the outer bracket open. |
| `Aggregates.GroupContext.CallBoxedStep` | crates/rusqlite/src/functions.rs:717-760 | Out of memory, failed `init`, failed or panicking `step`: what each leaves in the group's slot and boxes. |
| `Aggregates.GroupContext.CallBoxedInverse` | crates/rusqlite/src/functions.rs:763-800 | Out of memory, a null slot followed, or `inverse` on the accumulator behind the slot: what each leaves. |
| `Aggregates.GroupContext.CallBoxedValue` | crates/rusqlite/src/functions.rs:844-873 | `value` on the accumulator if there is one, which it may change, nothing freed. |
| `Aggregates.GroupContext.CallBoxedFinal` | crates/rusqlite/src/functions.rs:802-841 | The box, if any, is taken, freed and given to `finalize`. |
| `Aggregates.CallsKeepOwned` | crates/rusqlite/src/functions.rs:709-800 | Any calls keep one box at most, owned by the slot; one exists if and only if some `init` succeeded. |
| `Aggregates.AccumulatorFreedOnce` | crates/rusqlite/src/functions.rs:802-841 | For any calls of a group and its final one: at most one box, freed once, in final; `finalize` gets it if and only if some `init` succeeded; a null pointer is followed if and only if an inverse came before that. |
| `Aggregates.GroupAnswers` | crates/rusqlite/src/functions.rs:802-873 | For any calls of a group, the last answer is `finalize`, and one in between `value`, of the accumulator that plain threading of the callbacks gives, without pointer, box or block. |
| `Aggregates.SteppedGroupFolds` | crates/rusqlite/src/functions.rs:802-841 | A group that is only stepped answers `finalize` of the fold of its rows from the first row's `init`, or of nothing without rows. |
| `Aggregates.CallReports` | crates/rusqlite/src/functions.rs:717-800 | What `step` and `inverse` report: no memory, a failure of `init` or of themselves, or nothing. |
| `Aggregates.SlideHolds` | crates/rusqlite/src/functions.rs:717-800 | Any relation between accumulator and frame that each succeeding callback keeps, holds after any moves of the frame. |
| `Aggregates.WindowTracksTheFrame` | crates/rusqlite/src/functions.rs:844-873 | So the value reported is that of an accumulator so related to just the rows in the frame; a group never stepped reports the value of nothing. |
| `Aggregates.WindowValueIsTheFold` | crates/rusqlite/src/functions.rs:844-873 | If a succeeding `inverse` cancels `step` on the oldest row and `value` only looks, the value is that of the fold over just the frame's rows; an emptied frame reports that of the untouched start. |
| `Aggregates.SumTracks` | crates/rusqlite/src/functions.rs:1113-1122 | With overflow wrapping or checked, each succeeding callback of the sum aggregate keeps the sum of the frame, modulo 2^64 or exactly. |
| `Aggregates.WindowSum` | crates/rusqlite/src/functions.rs:1113-1122 | A window sum goes on without error if and only if the rows are integers and, where overflow is checked, no frame's sum overflows; it is then the 64-bit sum of its frame, NULL if and only if no row was ever pushed. |
| `Batches.Prepare` | crates/rusqlite/src/inner_connection.rs:208-274 | Whatever the compiler says, the tail reported is 0 or strictly inside the text. |
| `Batches.ExecuteBatch` | crates/rusqlite/src/lib.rs:539-558 | The loop ends, with the database, the statements stepped and the first error that the recursive reading of the text gives. |
| `Batches.Batch.Next` | crates/rusqlite/src/lib.rs:1148-1167 | The next statement that is not empty, and where the following one begins. |
| `Batches.NextIsFirstOfRest` | crates/rusqlite/src/lib.rs:1148-1167 | What `next` gives is what running the rest of the text would do first, and it moves strictly on. |
| `Batches.RunsTheRest` | crates/rusqlite/src/lib.rs:541-556 | Where the compiler ends a segment inside the text, running goes on with exactly the bytes after it, once a statement in it has been stepped well. |
| `Batches.RunsTheLast` | crates/rusqlite/src/lib.rs:541-556 | A segment with no tail strictly inside is the last one run; one that does not compile or is too long ends the run with its error. |
| `Batches.NextStandsAfterTheCut` | crates/rusqlite/src/lib.rs:1149-1166 | `next` gives the statement and stands right after its segment, or looks on from there. |
| `Batches.NextStandsAtTheEnd` | crates/rusqlite/src/lib.rs:1149-1166 | After the last segment `next` stands at the end; an error leaves it where it was. |
| `Batches.StepEach` | crates/rusqlite/src/lib.rs:1148-1167 | Stepping each statement of a `Batch` before asking for the next gives exactly what `execute_batch` gives, for every text and compiler. |
| `Batches.OneStatementExactly` | crates/rusqlite/src/lib.rs:783-790 | Single-statement prepare succeeds if and only if every segment compiles and all but the first compile to nothing; otherwise it reports the segment that does not compile, or else `MultipleStatement`. |
| `Batches.PreparesTheRest` | crates/rusqlite/src/lib.rs:783-790 | Single-statement prepare looks at exactly the bytes after the cut, with the default flags, and takes a last segment as it is. |
| `Pragmas.Sql.WrapAndEscape` | crates/rusqlite/src/pragma.rs:113-124 | The loop appends the quoted form with every quote doubled. |
| `Pragmas.Sql.PushIdentifier` | crates/rusqlite/src/pragma.rs:41-47 | Bare if it is an identifier, quoted otherwise. |
| `Pragmas.Sql.PushKeyword` | crates/rusqlite/src/pragma.rs:28-35 | Accepted if and only if it is a non-empty identifier; a refusal appends nothing. |
| `Pragmas.Sql.PushPragma` | crates/rusqlite/src/pragma.rs:18-26 | The keyword, a space, the schema and its dot, and the name unless refused. |
| `Pragmas.Sql.PushValue` | crates/rusqlite/src/pragma.rs:49-75 | Integers and texts are appended in their printed form; a failing conversion or invalid UTF-8 is its own error, null and blob values are refused, and all of these append nothing. |
| `Pragmas.BuildPragma` | crates/rusqlite/src/pragma.rs:222-238 | The text built for a query, an assignment or a call, or the first refusal. |
| `Pragmas.UnquotedEscaped` | crates/rusqlite/src/pragma.rs:113-124 | Reading a quoted form gives back the text, unless a NUL is in it. |
| `Pragmas.PragmaRoundTrip` | crates/rusqlite/src/pragma.rs:18-124 | Tokenizing the text built gives back schema, name, form and value if and only if the schema is not empty, nothing bare begins with a byte order mark, and no NUL is inside quotes. |
| `Pragmas.PragmaTextIsInjective` | crates/rusqlite/src/pragma.rs:18-124 | So distinct PRAGMAs of that kind print differently. |
| `Pragmas.IdentifierExactly` | crates/rusqlite/src/pragma.rs:266-291 | Letters, the underscore and non-ASCII characters anywhere, digits and the dollar sign after the first. |
| `Pragmas.RefusedExactly` | crates/rusqlite/src/pragma.rs:28-75 | Building fails if and only if the name is no keyword or the value is null, a blob or unconverted, and with which error. |
| `Backups.Backup.Step` | crates/rusqlite/src/backup.rs:262-273 | The four codes that are results; any other is an error. |
| `Backups.Backup.RunBackup` | crates/rusqlite/src/backup.rs:74-87 | The loop is the policy that gives up at the first busy or locked step. |
| `Backups.Backup.RunRestore` | crates/rusqlite/src/backup.rs:112-133 | The loop is the policy that gives up at the third busy step in all, or a locked one. |
| `Backups.Backup.RunToCompletion` | crates/rusqlite/src/backup.rs:299-311 | The loop is the policy that never gives up. |
| `Backups.LoopSucceedsExactly` | crates/rusqlite/src/backup.rs:112-133 | Any such loop succeeds if and only if enough steps proceed before its policy gives up, after one step for each and one for each wait; the destination is then the source and otherwise as it was. |
| `Backups.LoopFailsWith` | crates/rusqlite/src/backup.rs:128-133 | A loop that fails reports the obstacle its policy gave up at. |
| `Backups.BackupExactly` | crates/rusqlite/src/backup.rs:74-87 | `backup` succeeds if and only if its first max(1, ceil(n/100)) steps all proceed, and uses just those; otherwise it reports the first that does not. |
| `Backups.RestoreExactly` | crates/rusqlite/src/backup.rs:112-133 | `restore` succeeds if and only if enough steps proceed before it gives up, which is at a locked step, an error, or the third busy step in all and nowhere else; it reports that one, or else uses at most max(1, ceil(n/100)) + 2 steps. |
| `Backups.CompletionExactly` | crates/rusqlite/src/backup.rs:299-311 | `run_to_completion` fails only on an error met before enough steps proceed, and reports it. |
| `RowMaps.ColumnIndex` | crates/rusqlite/src/column.rs:169-180 | The first column whose name matches up to ASCII case, or none if none does. |
| `AsciiNames.SameNameExactly` | crates/rusqlite/src/column.rs:175 | Names match if and only if they differ at most in the case of ASCII letters. |
| `RowMaps.ColumnNames` | crates/rusqlite/src/column.rs:80-88 | All names, in order. |
| `RowMaps.GetRef` | crates/rusqlite/src/row.rs:320-327 | The value of the first matching column; an unknown name is the error. |
| `RowMaps.ParseRow` | src/utils.rs:34-43 | Never fails, and gives the map of the row. |
| `RowMaps.ReadRow` | src/row.rs:56-68 | Gives the map of the row, never using the NULL kept for an unknown name. |
| `RowMaps.MapIsUnique` | src/utils.rs:34-43 | A row has only one such map, so both conversions agree on every row. |
| `RowMaps.MapsLoseOnlyShadowedColumns` | src/utils.rs:34-43 | Every name is a key; it holds its own column's value if no earlier name matches it, otherwise the earliest matching column's. |
| `RowMaps.DistinctNamesAreLossless` | src/utils.rs:34-43 | When names differ up to case every value is under its name and there are as many entries as columns. |
| `RowMaps.Rows.constructor` | src/row.rs:52-72 | Keeps the map of each row before the first error or the end, in order. |
| `RowMaps.RowIterator.Next` | src/row.rs:121-127 | The row at the position, converted; the position moves whenever there was a row, and a row that does not convert reads as the end. |
| `RowMaps.Iterate` | src/row.rs:83-127 | Iterating yields what `get` gives for 0, 1 and so on, and all the rows if and only if they all convert; after them `get` gives nothing, and where iteration stops early it gives an error. |

## Left out

Assumed of SQLite and of what surrounds this code:

- A statement's behaviour depends on the database, its text, its bindings and its position; a stale program is recompiled by SQLite, and whether it has parameters or columns depends on its text only.
- Destructors run: leaking a `Rows`, direct `raw_*` calls mixed with the normal ones, and swapping statements through a mutable reference are not part of this model.
- Savepoint names are plain identifiers, and transaction control is not sent as text by callbacks or between handle operations.
- SQLite does not roll a transaction back on its own; savepoints are not mixed into the runs over transaction handles.
- The LRU map is an ordered list with remove, insert, evict-oldest and resize. Releasing a mutex is one atomic step and poisoning does not occur.

Not modelled:

- CachedRuns.CacheIsInvisible: column metadata asked of a cached statement before its first step, status counters and the PERSISTENT flag are not among the observations. Preparing a whole text is one step: refused, with the handles it made by then thrown away, or one statement, or none.
- CachedRuns.RunAgrees: the same observations are left out.
- Savepoints.BracketsAreAtomic: requires that each call's RELEASE succeeds or else both of its destructor's calls do. `Savepoints.BracketRuns` shows that without it the savepoint stays.
- Recency.LargerCacheHitsToo: stated for runs whose hits are on texts that still compile, because otherwise the two connections' callers hold different statements.
- Pragmas.PragmaRoundTrip: floating-point values, whose printing is not modelled (the printed text is taken as given), and SQL keywords as bare schema names, which is a matter of the grammar and not of the tokens.
- Backups.LoopSucceedsExactly: the source does not change while it is copied; progress callbacks and sleeps are left out.
- Aggregates.WindowTracksTheFrame: stated while every callback succeeds, because a failing one ends the query with its error.
- Aggregates.WindowValueIsTheFold: the same, and for a `value` that leaves the accumulator as it found it; `Aggregates.WindowTracksTheFrame` covers one that changes it.
- Batches.ExecuteBatch: a tail that falls inside a UTF-8 character.
- InterruptAndClose.InterruptAndCloseAreSafe: removing hooks before `close` takes the mutex.
- Raw statements are values that move, as in the source; a statement object and its rows are objects, other objects that share a connection are not.
- `Map`, `MappedRows` and `AndThenRows`, which call `next` once and apply a function.
- The parameter-name cache, a function of the text; conversion of values, JSON and callbacks at the JavaScript boundary; metadata, configuration, limits, collations, blobs, virtual tables, sessions, serialization, error display.
