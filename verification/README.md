# Verified models of gobase

Dafny models of the parts of gobase that keep state or do arithmetic: the Postgres work
queue, transactions with their callbacks, the rate limiters, the PDF render-slot manager, and
four sequential algorithms. `dafny verify dfyconfig.toml` checks the whole project.

| file | models |
|---|---|
| Dispatcher.dfy | the scheduler, job goroutines and `signal` channel of one process (pqworkqueue/main.go) |
| Dispatching.dfy | what the dispatcher gets done: slots filled, wake-ups followed (pqworkqueue/main.go) |
| DueJobs.dfy | the dispatcher with waiting jobs, notifications and its timer (pqworkqueue/main.go) |
| StarvedQueue.dfy | runs in which a job in progress keeps the timer from another queue (pqworkqueue/main.go) |
| Workers.dfy | one process's goroutines at work on the table (pqworkqueue/main.go) |
| JobStore.dfy | the table, row locks and transactions of all processes (pqworkqueue/main.go) |
| JobHistory.dfy | how rows were claimed and with which result they were completed (pqworkqueue/main.go) |
| ConcurrentAdds.dfy | debounced adds in overlapping transactions (pqworkqueue/main.go) |
| CommitFolds.dfy | the arguments that overlapping adds leave in a row (pqworkqueue/main.go) |
| Debounce.dfy | `Queue.add` and its three debounce modes (pqworkqueue/main.go) |
| TxLifecycle.dfy | `Commit`, `Rollback`, `WithTx2` and the callback lists (model/tx.go, model/main.go) |
| TxOutcomes.dfy | the errors, nils and panics of these calls, and the order of their logs (model/tx.go) |
| KeyedLimiter.dfy | the token buckets and the janitor (ratelimit/keyed.go) |
| ChannelLimiter.dfy | the channel limiter (ratelimit/main.go) |
| RenderSlots.dfy | `autoShutdown` and `setupBrowser` (pdfprinter/pdfprinter2/playwright.go) |
| Permutations.dfy | `Permutations` and its odometer (jv/arrayutil.go) |
| DateTravel.dfy | `AddDays` and `BusinessDaysBetween` (timeutil/main.go) |
| Currency.dfy | printing and parsing of amounts (currency/main.go) |
| Tsv.dfy | the TSV writer, and a reader for it (encoding/tsv/main.go) |
| Counting.dfy | sums over sequences |
| Basics.dfy | options and the bounds of int64 |

## How concurrency is modelled

The dispatcher, its timer, its workers, the table, the channel limiter and the render manager are step systems: a
state, the steps with their guards (`Enabled`), what each step does (`Next`), and `After`, which
plays a list of steps. A step is one atomic action of one goroutine, and every theorem is about
every list of steps. Fields called history only record what happened.

The dispatcher lets the database answer anything at any time, and the table lets any worker
transaction start at any time, so each covers every run of the two together. The dispatcher
reads the queues one by one under its read lock, as the loop in `getPredictedStart` does.
The methods of `WorkerInfo` run under its mutex, so each of them is one step. DueJobs adds the
committed rows that wait for a start, the notifications sent for them, and the true answer of the
query in `getPredictedStart`, which may fail; its runs are runs of the dispatcher. Workers joins
the goroutines with the transactions of the table: its runs are runs of both, one process's
goroutines claim and finish rows while all other transactions interleave, and a run ends with the
death of that process.

In the table, a transaction holds its uncommitted writes and locks exactly the rows it wrote.
A claim is one atomic choice of an unlocked pending due row with the earliest start; commits,
aborts and the death of a process may come at any point. An outer transaction ends only by its
own goroutine or by the death of its process.

## Where the code differs from what one would expect

- A freed slot wakes the scheduler exactly when `startWork` returned true. A goroutine that
  claimed nothing, or that panicked after its claim (in a commit callback, say), frees its slot
  without a signal. `Dispatcher.SilentReleaseIsMissed` gives both runs.
- The query behind the timer counts a row whose claim is not committed as waiting, and the timer
  leads only to the queue of an earliest such row. So a job in progress on a queue with a free
  slot can keep the timer from a waiting row of another queue for as long as it runs, unless some
  signal names that queue: `StarvedQueue.JobInProgressHidesAnotherQueue`.
  `DueJobs.TimerChecksTheFirstQueue` says which queue the timer reaches.
- `MaxConcurrentRenders` below one is documented to count as one, but refuses every request. The
  code follows the documented rule exactly when the limit is at least one:
  `RenderSlots.GrantsFollowTheRule`; `RenderSlots.LimitZeroRefuses` is a run that breaks it.
- Calls in excess of `MaxConcurrentRenders` are documented to block until a slot frees, but are
  answered with an error at once: `RenderSlots.GrantsFollowTheRule`, with
  `RenderSlots.ExcessRequestIsRefused` as the run.
- `AddDays` with the smallest int64 returns its argument, because the negation wraps. It finds
  the n-th allowed day exactly for all other n: `DateTravel.AddDays`.
- `AddDays` is monotone in days but not in instants: `DateTravel.OrderOfInstants` gives the exact
  condition, `DateTravel.WeekendSwapsInstants` an example.
- A claim that aborts can leave two pending rows for one debounce key:
  `Debounce.AbortedClaimLeavesTwo`. With serial adds a key never has two pending rows if and only
  if each abort on it comes while it is vacant, that is, nothing was added to it and no other
  claim of it aborted since its last claim: `Debounce.OnePendingRowWhileAbortsAreTidy`. Adders that
  overlap are a second cause, because `skip locked` passes over a row that another transaction
  holds and two uncommitted inserts do not see each other: `ConcurrentAdds.OverlappingAddsLeaveTwo`.
  Among all interleavings a key keeps at most one unfinished row if and only if no add inserts
  while another transaction holds one: `ConcurrentAdds.OneRowUnlessHeldElsewhere`.
- A commit callback can run although nothing was committed, when it is registered after a
  rollback or a failed commit: `TxLifecycle.CommitCallbackAfterRollback`. This happens exactly when
  the closing driver call is no successful commit and a rollback callback, or the rest of the
  body, registers one: `TxLifecycle.CommitCallbackWithoutCommit`.
- `WriteRow` with no values writes the same bytes as with one empty value:
  `Tsv.EmptyRowIsWrittenAsEmptyValue`. Lists that differ in more than this have different bytes:
  `Tsv.SameBytesSameRows`.
- `Parse` ignores whatever follows two decimals, digits or not:
  `Currency.IgnoresWhatFollowsTwoDecimals`, with `Currency.ParsesNoDecimal` as an example;
  `Currency.AcceptsExactly` describes all accepted texts.

## Model

| member | source | states |
|---|---|---|
| Dispatcher.NoLostWakeUp | pqworkqueue/main.go:471-508 | In every interleaving, a queue with a new worker or a slot freed after a job since its last read has a wake-up pending: the signal is non-empty, a send is ahead, or the scheduler will still read it. When all is quiet, every queue skipped as busy is still at its limit, silent releases aside. |
| Dispatcher.FreeingWakesOnlyAfterAJob | pqworkqueue/main.go:173-187 | Freeing a slot sets a wake-up in motion if and only if `startWork` returned true (or one was pending anyway). |
| Dispatcher.SilentReleaseIsMissed | pqworkqueue/main.go:177-187 | Concrete runs in which a release that sends no signal leaves a free slot on a queue the sleeping scheduler believes busy. |
| Dispatcher.SlotAccounting | pqworkqueue/main.go:710-727 | `nActive` is exactly the number of live goroutines holding a slot of that `WorkerInfo`, re-registrations included, and never exceeds `NConcurrent`. |
| Dispatcher.ProcessWorkIsReleased | pqworkqueue/main.go:280-291 | Each dispatched goroutine sends at most one value on `claimed`, and exactly one once `startWork` is left, by panic too; a waiting `processWork` can receive it or the goroutine can move. |
| Dispatcher.NothingDisturbsTheWait | pqworkqueue/main.go:190-196 | While `processWork` waits, every move of its goroutine brings the send closer and no other step disturbs the wait. |
| Dispatcher.WorkerInfo.StartWorkers | pqworkqueue/main.go:662-680 | Sets the two defaults, where a zero limit means one as in the step system, and panics exactly when the name or the callback is missing. |
| Dispatcher.WorkerInfo.IsAtConcurrencyLimit | pqworkqueue/main.go:703-708 | Answers the limit test that the step system uses. |
| Dispatcher.WorkerInfo.ConcurrencyCheck | pqworkqueue/main.go:710-719 | Makes the change that the dispatcher's check step makes to the counter exactly when a slot is free, and otherwise none. |
| Dispatcher.WorkerInfo.Cancel | pqworkqueue/main.go:720-724 | Makes the change that a goroutine's release makes to the counter. |
| Dispatching.CheckTakesAFreeSlot | pqworkqueue/main.go:166-196 | In every reachable state a check dispatches one more goroutine, on one more slot of the listening worker, if and only if that worker has `nActive` below its limit; otherwise nothing but the scheduler's point changes. |
| Dispatching.RoundsFillTheSlots | pqworkqueue/main.go:160-196 | As many rounds of check, claim, signal and answer as there are free slots fill all of them, and then the scheduler leaves the loop. |
| Dispatching.LeadsOn | pqworkqueue/main.go:480-507 | What these steps lead to from a reachable state is reachable. |
| Dispatching.FinishedJobBringsTheScheduler | pqworkqueue/main.go:173-187 | A job that ends while the scheduler sleeps gives its slot back and brings the scheduler to check its own queue. |
| Dispatching.NewWorkerBringsTheScheduler | pqworkqueue/main.go:457-468 | So does a registration, which replaces the queue's worker. |
| Dispatching.NotificationBringsTheScheduler | pqworkqueue/main.go:594-606 | And so does a notification for the queue it names. |
| Dispatching.WakingLeadsToARead | pqworkqueue/main.go:480-503 | Whatever wakes the scheduler, it reads every queue before it sleeps again. |
| Dispatching.BusyIsExact | pqworkqueue/main.go:519-529 | While the scheduler sleeps, the queues it left out as busy are exactly those without a free slot, but for those that changed since. |
| Dispatching.SilenceHasACause | pqworkqueue/main.go:177-187 | Without goroutines that find nothing or panic, no slot is freed silently. |
| Dispatching.WorkersAreAsCreated | pqworkqueue/main.go:662-665 | In every run the workers keep the queues and limits they were given, where zero means one. |
| DueJobs.TimerIsSetInTime | pqworkqueue/main.go:471-576 | In every interleaving: when the scheduler sleeps and nothing is on its way to wake it, each committed waiting row of a queue with a worker has its queue at the limit or the timer set no later than its start, unless a silent release, a lost notification or a failed query kept the scheduler from knowing. |
| DueJobs.TimerChecksTheFirstQueue | pqworkqueue/main.go:481-487 | A firing timer checks a queue only if it has an earliest row among those the last query looked at, rows in progress included, and checks it for sure if that row is before all rows of other queues; without ties this is an if and only if. |
| DueJobs.QueryMayChoose | pqworkqueue/main.go:544-551 | The query can answer with a queue if and only if that queue has an earliest row, so with ties any of them. |
| DueJobs.RowsWaitAsCommitted | pqworkqueue/main.go:544-551 | A row waits for its queue and start from the commit that set them until it leaves. |
| DueJobs.MissingHasACause | pqworkqueue/main.go:553-576 | Without lost notifications and failed queries the scheduler has missed nothing. |
| StarvedQueue.JobInProgressHidesAnotherQueue | pqworkqueue/main.go:481-507 | Runs in which the timer fires any number of times and the scheduler never checks a queue that has a free slot and a waiting row, because a job of another queue is in progress. |
| DueJobs.RunIsADispatcherRun | pqworkqueue/main.go:471-508 | Every run with jobs and timer is a run of the dispatcher, so its theorems hold there. |
| JobStore.ExactlyOnePhase | pqworkqueue/main.go:319-384 | At all times every row is in exactly one phase: unknown, pending, held by exactly one worker, completed, or cleaned after its `retain_until`; a committed row has `started_at` and `completed_at` both set or both null. |
| JobStore.PhaseSteps | pqworkqueue/main.go:370-394 | Only a claim starts a row, only the commit of a stored result completes it, only its holder's abort or crash returns it to pending, only an expired completed row is cleaned; held and completed rows are not written. |
| JobStore.RollbackReturnsTheRow | pqworkqueue/main.go:386-391 | A rollback or crash of the holder makes the row pending again, exactly as it was. |
| JobStore.ResultIsWrittenOnce | pqworkqueue/main.go:370-377 | In every run a result is committed exactly once for a completed or cleaned row and never for another. |
| JobHistory.CompletedRowHoldsTheResult | pqworkqueue/main.go:370-377 | In every run a completed row holds exactly the result, error and two times that a transaction stored between its claim and its commit, while it held the row without a break; all other fields but the start are those of the pending row. |
| JobHistory.HolderHasClaimed | pqworkqueue/main.go:427-438 | A worker that holds a row claimed it when it was due and started no later than any other due free row of its queue, has held it since, and the committed row is still the one it claimed. |
| JobHistory.ClaimIsPossible | pqworkqueue/main.go:427-434 | A claim is possible if and only if the queue has a row that is due, not started and free. |
| JobHistory.JobCanStart | pqworkqueue/main.go:319-333 | Such a row, when it is first, can be claimed by a new worker, and only its start is set. |
| JobHistory.JobCanComplete | pqworkqueue/main.go:370-384 | A claimed job can be completed with any result. |
| JobHistory.ExpiredRowCanBeCleaned | pqworkqueue/main.go:621-632 | The cleaner can delete a free row whose `retain_until` has passed, and deletes only that. |
| JobHistory.SweepsOnlyExpired | pqworkqueue/main.go:621-632 | It deletes no other row. |
| JobHistory.InsertReachesTheTable | pqworkqueue/main.go:897-907 | What an adder inserts is in the table once it commits. |
| JobHistory.AmendmentReachesTheTable | pqworkqueue/main.go:958-963 | What it makes of a free pending row is too; only argument and start change. |
| JobHistory.UncommittedWritesVanish | pqworkqueue/main.go:386-391 | Rollbacks and deaths are always possible and leave the table as it was. |
| JobStore.CompletedIsFinal | pqworkqueue/main.go:621-632 | A completed row never changes and is never claimed again; it only disappears when cleaned. |
| JobStore.ClaimedArgIsCommitted | pqworkqueue/main.go:440-449 | The worker's argument is that of the committed row, and no other transaction writes the row meanwhile. |
| JobStore.ClaimFindsTheEarliest | pqworkqueue/main.go:427-434 | A claim finds a row exactly when a claimable one exists. |
| Workers.RowsInProgressAreBounded | pqworkqueue/main.go:166-196 | In every interleaving with other processes, the rows of the table that a process is working on for a `WorkerInfo` are at most `nActive`, and so at most `NConcurrent`. |
| Workers.RowsAreAccountedFor | pqworkqueue/main.go:319-333 | Every row held by a worker transaction of the process is one of those, counted for a `WorkerInfo` of the row's queue. |
| Workers.DueRowIsClaimed | pqworkqueue/main.go:319-333 | A goroutine with a due unlocked row in its queue can claim the earliest one and then holds it, and its query cannot find nothing. |
| Workers.NoJobMeansNothingWasDue | pqworkqueue/main.go:321-329 | A goroutine that returns without a job has had a failure, or its query ran at a moment of the run at which no unlocked row of its queue was due. |
| Workers.JobComesToItsEnd | pqworkqueue/main.go:370-394 | A running job can store its result, commit it and leave: the row then has these four values, its start, and nothing else changed. |
| Workers.RunIsADispatcherRun | pqworkqueue/main.go:166-196 | Runs of the workers are runs of the dispatcher. |
| Workers.RunIsAStoreRun | pqworkqueue/main.go:319-384 | And runs of the table, so the theorems of both hold of them. |
| Debounce.JobTable.Insert | pqworkqueue/main.go:891-904 | Inserts a pending row with the queue, key, argument and scope of the call, and the start given with it or else the current time. |
| Debounce.JobTable.Add | pqworkqueue/main.go:874-1022 | The new table and the returned id of an add in every mode, whichever pending row the query picks. |
| Debounce.DebounceIsAFold | pqworkqueue/main.go:920-1019 | For serial adds on one key, interleaved with any other traffic and with aborts that find the key vacant: at most one unclaimed row, equal to the fold of the open segment, which is the adds since the last claim or the segment that an abort reopened; workers received the folds of the segments that claims cut off, in order. |
| Debounce.AddReturnsThePendingRow | pqworkqueue/main.go:966-1021 | In such runs each add returns the id of the one row then pending; a failing merge changes nothing. |
| Debounce.PlainAddHasItsRow | pqworkqueue/main.go:897-907 | In every serial run an add without a debounce key returns the id of a row of its own, which carries exactly that call until it is cleaned, whatever other adds do, and with which it reaches workers. |
| Debounce.FinishedIsOver | pqworkqueue/main.go:370-377 | A finished row is not claimed, aborted or finished again. |
| Debounce.CleanedIsGone | pqworkqueue/main.go:621-632 | A cleaned row does not come back. |
| Debounce.MergeMode | pqworkqueue/main.go:948-963 | In merge mode the argument is the left fold of `DebounceMerge` and the start is the first or the last by the flag. |
| Debounce.PlainModes | pqworkqueue/main.go:971-1019 | Keep-original keeps the first argument and start, replace the last; user and company stay those of the first add. |
| Debounce.OnePendingRowWhileAbortsAreTidy | pqworkqueue/main.go:847-850 | In every run of serial adds, claims and aborts, a key never has two pending rows if and only if every abort on it comes when nothing was added to it, and no claim of it aborted, since its last claim. |
| Debounce.AbortedClaimLeavesTwo | pqworkqueue/main.go:386-391 | A run of add, claim, add and abort that ends with two pending rows for one key. |
| ConcurrentAdds.OneRowUnlessHeldElsewhere | pqworkqueue/main.go:847-850 | Among all interleavings of transactions whose adds look first, a key never has two unfinished rows (pending, in progress, or inserted and uncommitted) if and only if no add inserts while another transaction holds an unfinished row of the key. |
| ConcurrentAdds.UnfinishedIsHeld | pqworkqueue/main.go:977-983 | An add that finds no row although there is an unfinished one is kept from it by another transaction's lock. |
| ConcurrentAdds.OverlappingAddsLeaveTwo | pqworkqueue/main.go:977-983 | A run of two overlapping adds, each of which finds nothing, that commits two pending rows. |
| CommitFolds.UnfinishedRowsAreFolds | pqworkqueue/main.go:920-1019 | Whatever transactions overlap, commit, abort or crash, every pending or running row is the fold of the committed adds that wrote it, in the order of their commits, and an open adder continues that fold with its own calls. |
| CommitFolds.WorkerGetsTheFold | pqworkqueue/main.go:440-449 | A worker's argument is the fold of the committed adds on its row, which no other transaction holds meanwhile. |
| CommitFolds.PlayedIsARun | pqworkqueue/main.go:874-1022 | Runs of the table with the adds behind their steps are runs of the table. |
| TxLifecycle.TxInfo.constructor | model/tx.go:35-42 | A begun transaction is open and has no callbacks. |
| TxLifecycle.TxInfo.Commit | model/tx.go:114-136 | Closes at most once; then runs the list that matches the driver's answer, re-entrant callbacks included. |
| TxLifecycle.TxInfo.Rollback | model/tx.go:94-110 | Closes at most once; then runs the rollback list. |
| TxLifecycle.TxInfo.Cleanup | model/tx.go:44-56 | Rolls back exactly when nothing has closed the transaction. |
| TxLifecycle.TxInfo.CallAll | model/tx.go:131-133 | The loop over a callback list, ended by a panic. |
| TxLifecycle.TxInfo.OnTransactionCommitted | model/main.go:124-132 | Appends the callback while open, calls it at once when closed. |
| TxLifecycle.TxInfo.OnTransactionRolledBackOrCommitFailed | model/main.go:134-142 | Appends the callback while open, calls it at once when closed. |
| TxLifecycle.WithTx2 | model/tx.go:153-170 | Begin, body, commit or return, and deferred cleanup, with failing begins and panics. |
| TxLifecycle.LifeOfATransaction | model/tx.go:94-170 | For every body: one driver call, then the callbacks registered before it, in order, from exactly the list matching its outcome, then what the body still does. |
| TxLifecycle.DriverIsClosedAtMostOnce | model/tx.go:94-122 | Any sequence of operations, re-entrant ones too, makes at most one driver call. |
| TxLifecycle.WithTxClosesExactlyOnce | model/tx.go:163-169 | Left by return, error or panic, `WithTx2` has closed the driver exactly once. |
| TxLifecycle.CallbacksRunInOrder | model/tx.go:124-133 | The callbacks of the list each run at most once, in order: all, or up to the first that panics. |
| TxLifecycle.NilMeansCommitted | model/tx.go:165-169 | `WithTx2` returns nil if and only if the body neither closed nor failed, the driver committed, and no commit callback panicked. |
| TxOutcomes.OutcomeOfWithTx | model/tx.go:153-170 | How `WithTx2` is left for every body, error and driver answer, from the body alone: AlreadyClosed, the body's own error, CommitFailed, nil or a panic. |
| TxOutcomes.AlreadyClosedMeansClosedByTheBody | model/tx.go:114-118 | A nil body gets AlreadyClosed if and only if it closed the transaction itself and ended without a panic, and CommitFailed if and only if it left it open, the driver refused and no rollback callback panicked. |
| TxOutcomes.AnswersOfCommitAndRollback | model/tx.go:94-136 | What `Commit` and `Rollback` answer after any body. |
| TxOutcomes.BodyOutcome | model/tx.go:94-122 | Whether a body comes to its end, and both flags after it. |
| TxOutcomes.ListIsCalm | model/tx.go:124-133 | The calls of a list end without a panic if and only if there is none anywhere in its callbacks. |
| TxOutcomes.OpenPrefixIsTheRegistrations | model/main.go:124-142 | What runs before the close is the longest stretch of registrations. |
| TxOutcomes.RegistrationsInOrder | model/main.go:124-142 | The two lists keep the order of the registrations. |
| TxOutcomes.CallsInOrder | model/tx.go:124-133 | Lists are called from first to last, up to a panic. |
| TxOutcomes.OneCall | model/tx.go:131-133 | The call of a callback comes before what it does itself. |
| TxOutcomes.OperationsInOrder | model/main.go:124-142 | What a callback does runs in order, and callbacks it registers run at once. |
| TxLifecycle.LateRegistrationsRunAtOnce | model/main.go:124-142 | A registration calls its callback at once if and only if the body has closed the transaction before. |
| TxLifecycle.CommitCallbackWithoutCommit | model/tx.go:94-136 | In every life of a transaction, re-entrant callbacks included, a commit callback is called without a successful driver commit if and only if the closing call is none and a rollback callback that runs, or the rest of the body, registers one. |
| TxLifecycle.LateCommitCallbackWithoutCommit | model/main.go:124-132 | A commit callback that a body registers next is called without a successful commit if and only if the body has closed the transaction by anything else. |
| TxLifecycle.CommitCallbackAfterRollback | model/tx.go:94-110 | The two shortest such bodies: after a rollback and after a failed commit. |
| KeyedLimiter.Limiter.constructor | ratelimit/keyed.go:17-28 | A limiter starts without buckets, whatever its count and interval. |
| KeyedLimiter.Limiter.Refill | ratelimit/keyed.go:47-62 | The bucket after a lazy refill, for any clock reading, other keys untouched. |
| KeyedLimiter.Limiter.Take | ratelimit/keyed.go:66-79 | Succeeds exactly when the refilled bucket holds a token, and takes one. |
| KeyedLimiter.Limiter.IsLimited | ratelimit/keyed.go:84-96 | Answers the same question without taking. |
| KeyedLimiter.Limiter.Sweep | ratelimit/keyed.go:121-128 | Forgets exactly the buckets idle longer than the time to live. |
| KeyedLimiter.RefillTwice | ratelimit/keyed.go:54-58 | Refilling at one time and again later equals refilling once, later. |
| KeyedLimiter.ForgottenIsFull | ratelimit/keyed.go:106-127 | A bucket that may be forgotten is already full. |
| KeyedLimiter.ForgettingIsInvisible | ratelimit/keyed.go:105-131 | With times in lock order, any sweeps, queries and other keys: the Takes of a key are answered as by a bucket of its own that never forgets. |
| KeyedLimiter.SweepRemembersRecentKeys | ratelimit/keyed.go:105-128 | After a sweep the limiter remembers exactly the keys used within the longer of a minute and the interval. |
| KeyedLimiter.AdmissionBound | ratelimit/keyed.go:10-16 | For every key, run and span of time, at most count + count * span / interval Takes succeed. |
| KeyedLimiter.SilentKeyGetsTheWholeCount | ratelimit/keyed.go:64-79 | A key that took nothing for one interval can take exactly count at once. |
| KeyedLimiter.RefusedKeyRecovers | ratelimit/keyed.go:72-78 | A refused key succeeds after waiting interval / count. |
| ChannelLimiter.TokensAreConserved | ratelimit/main.go:39-88 | In every interleaving tokens are conserved, the bucket never exceeds count, and at most count Takes succeed for each refill round started, despite the two-step `IsLimited`. |
| ChannelLimiter.StopEndsRefills | ratelimit/main.go:32-54 | After `Stop` at most one more refill round starts. |
| ChannelLimiter.RoundFillsTheBucket | ratelimit/main.go:39-46 | A round without takes fills the bucket to `count`. |
| ChannelLimiter.TakesSucceed | ratelimit/main.go:56-62 | As many Takes succeed as there are tokens, and not one more. |
| ChannelLimiter.FirstRoundGivesCount | ratelimit/main.go:39-46 | So the first round gives `count` Takes. |
| ChannelLimiter.TickStartsARound | ratelimit/main.go:48-52 | A tick starts one more round. |
| ChannelLimiter.IsLimitedPutsBack | ratelimit/main.go:76-88 | An undisturbed `IsLimited` takes nothing. |
| RenderSlots.SlotAccounting | pdfprinter/pdfprinter2/playwright.go:105-173 | `active` is exactly the granted slots not received back, within the limit; the manager shuts the browser down only when there are none, after a drain too. |
| RenderSlots.GrantsFollowTheRule | pdfprinter/pdfprinter2/playwright.go:21-26 | In every run a request is granted exactly when fewer slots are outstanding than the limit; answers follow the documented rule, where a limit below one counts as one, if and only if the limit is at least one. |
| RenderSlots.LimitZeroRefuses | pdfprinter/pdfprinter2/playwright.go:112-115 | A run with the limit zero whose only request is refused while no slot is outstanding. |
| RenderSlots.ExcessRequestIsRefused | pdfprinter/pdfprinter2/playwright.go:112-115 | A run with the limit one in which the second client is refused at once while the first holds its slot. |
| RenderSlots.MutexHolderMoves | pdfprinter/pdfprinter2/playwright.go:241-248 | Whoever holds the mutex can move, or the manager can, even while a failed setup sends its decrement. |
| RenderSlots.InternalStepsUseUpWork | pdfprinter/pdfprinter2/playwright.go:226-342 | Each step that needs no outside event uses up some of a finite amount of work. |
| RenderSlots.NeverDeadlocked | pdfprinter/pdfprinter2/playwright.go:162-170 | No reachable state is deadlocked or livelocked: without new requests and ticks everything settles within a bound. |
| RenderSlots.IdleBrowserIsShutDown | pdfprinter/pdfprinter2/playwright.go:135-157 | The last slot that comes back starts the idle clock, whose tick shuts the browser down and after which it is off. |
| RenderSlots.GrantSetsTheClocks | pdfprinter/pdfprinter2/playwright.go:117-127 | A grant turns the idle clock off, and the first one starts the clock of the browser's age. |
| RenderSlots.DrainingEndsWithTheLastSlot | pdfprinter/pdfprinter2/playwright.go:159-173 | A draining manager accepts no request and hears no tick, and shuts the browser down exactly when no slot is left. |
| RenderSlots.RenderComesToItsEnd | pdfprinter/pdfprinter2/playwright.go:239-342 | A granted client can set up, render and come to its decrement, with the mutex free again. |
| RenderSlots.FailedSetupGivesBoth | pdfprinter/pdfprinter2/playwright.go:239-248 | A failed setup gives the slot back with the mutex held, and then the mutex. |
| RenderSlots.RequestsComeAndGo | pdfprinter/pdfprinter2/playwright.go:226-233 | A request waits until the manager accepts it, and can be given up before. |
| Permutations.PermCounter.constructor | jv/arrayutil.go:428-442 | A counter starts at zero, without a next one. |
| Permutations.PermCounter.Value | jv/arrayutil.go:481-493 | The index vector of the chain, last column from the root, -1 for an empty column. |
| Permutations.PermCounter.Incr | jv/arrayutil.go:495-507 | A successful increment raises the mixed-radix reading by exactly one; it fails exactly at the last one. |
| Permutations.ReadingIsRank | jv/arrayutil.go:470-479 | The reading is the rank of the index vector that the chain shows. |
| Permutations.Reverse | jv/arrayutil.go:130-137 | The input in reverse. |
| Permutations.Build | jv/arrayutil.go:426-442 | One zero counter for each size, linked in order. |
| Permutations.SelectIndexes | jv/arrayutil.go:455-468 | The chosen option for each index, the default for -1; fewer indexes than columns will do. |
| Permutations.Round | jv/arrayutil.go:444-452 | One round: the row of the k-th vector, and a turn to the next, or the end exactly after the last. |
| Permutations.VisitAll | jv/arrayutil.go:444-452 | The loop calls back once for each rank, in order, and terminates. |
| Permutations.Permutations | jv/arrayutil.go:412-453 | Exactly the product of max(1, size) callbacks, none for an empty input; the k-th gets from each column the option whose index is in the vector of rank k, or the default from an empty column. |
| Permutations.RankOrdersLexicographically | jv/arrayutil.go:470-474 | Ranks order index vectors lexicographically and are injective. |
| Permutations.EveryVectorOnce | jv/arrayutil.go:412-453 | So every index vector of the product is visited exactly once, in strictly increasing lexicographic order. |
| Permutations.EveryChoiceIsCalledOnce | jv/arrayutil.go:412-468 | Every choice of one option from each column is passed to the callback by exactly one call. |
| DateTravel.Contains | timeutil/main.go:36-56 | A day is allowed when it is no holiday and, with business days on, no weekend. |
| DateTravel.AddDays | timeutil/main.go:18-34 | The n-th allowed day in that direction, clock kept, never a holiday nor, with business days on, a weekend day, within 7 * ceil((n + H) / 5) one-day steps with business days on (n + H otherwise); right exactly when n has a negation. |
| DateTravel.HorizonSuffices | timeutil/main.go:26-31 | Pigeonhole: that many days always contain n allowed ones, whatever the holidays. |
| DateTravel.TravelIsUnique | timeutil/main.go:16-17 | There is only one n-th allowed day. |
| DateTravel.ThereAndBack | timeutil/main.go:18-34 | Going n days and back returns to the start if and only if the start is allowed. |
| DateTravel.JourneysCompose | timeutil/main.go:26-33 | Journeys of a and b days in one direction are one of a + b. |
| DateTravel.TravelIsMonotone | timeutil/main.go:18-34 | Later days arrive no earlier, and together exactly when no allowed day lies between. |
| DateTravel.OrderOfInstants | timeutil/main.go:16-34 | The exact condition under which clock times break the order of two instants. |
| DateTravel.WeekendSwapsInstants | timeutil/main.go:18-34 | A Saturday and an earlier clock time on Sunday that change their order. |
| DateTravel.CountIsCardinality | timeutil/main.go:36-56 | The count used above is the number of days in a range that are no holidays and, with business days on, no Saturdays or Sundays. |
| DateTravel.BusinessDaysBetween | timeutil/main.go:77-95 | Terminates with the number of business days at the first clock time strictly between the two instants, 0 when they are not in order. |
| DateTravel.BusinessDaysAreInBetween | timeutil/main.go:77-95 | That count is the number of such days whose instant at the first clock time lies strictly between the two. |
| Currency.CleanStrips | currency/main.go:112-113 | Dollar signs and spaces around the text and commas anywhere in it are removed; everything else stays, padding inside it too. |
| Currency.PaddingIsIgnored | currency/main.go:112-113 | Any spaces and dollar signs around a text do not change what it parses to. |
| Currency.OtherTextIsKept | currency/main.go:112-113 | No other characters are dropped. |
| Currency.DigitsHaveTheirValues | currency/main.go:187-199 | The ten digits, and only they, with their values. |
| Currency.IsAllDigits | currency/main.go:187-199 | Whether a string is non-empty and all digits. |
| Currency.Parse | currency/main.go:107-185 | Computes `Parsed` with every intermediate value inside int64. |
| Currency.ParseMagnitude | currency/main.go:126-168 | The part of `Parse` after the sign. |
| Currency.AcceptsExactly | currency/main.go:126-168 | Accepts exactly an optional sign, digits, and nothing or a fraction whose first two characters are digits, with the dollars within bounds. |
| Currency.IgnoresWhatFollowsTwoDecimals | currency/main.go:152-156 | Dollars, a stop, two digits and then anything without a stop, comma or padding parse to those dollars and cents. |
| Currency.ParsesNoDecimal | currency/main.go:152-156 | A text that is no decimal and parses. |
| Currency.ParsedSpelling | currency/main.go:133-184 | The value, or which of the two errors, for every readable text. |
| Currency.ParsesDecimals | currency/main.go:142-184 | A well-formed decimal parses to its signed amount in cents, truncated toward zero, and fails exactly above (MaxInt64 - 99) / 100 dollars. |
| Currency.PrintedSpells | currency/main.go:15-25 | A printed amount is its sign, dollars and two digits of cents. |
| Currency.PrintParseRoundTrip | currency/main.go:15-25 | Parsing a printed amount gives it back if and only if its magnitude is at most 9223372036854775799, and is otherwise an error. |
| Currency.SmallestIsInvalid | currency/main.go:19-24 | The smallest int64 prints with two signs and does not parse. |
| Currency.CentsWithJsonEncoding.MarshalJSON | currency/main.go:93-95 | The JSON text parses to the amount exactly when its magnitude is at most 9223372036854775799, and to none otherwise. |
| Currency.CentsWithJsonEncoding.UnmarshalJSON | currency/main.go:97-105 | Sets the parsed amount, or fails and changes nothing. |
| Currency.Transfer | currency/main.go:93-105 | Marshalling any amount and unmarshalling it elsewhere gives the amount back, or an error and no change exactly above that magnitude. |
| Tsv.Encoder.EncodeValues | encoding/tsv/main.go:30-41 | Encodes the caller's slice in place. |
| Tsv.Encoder.WriteRow | encoding/tsv/main.go:22-28 | Appends exactly the line of the values passed in, or reports the writer's error after the part of it that was written. |
| Tsv.Encoder.WriteRows | encoding/tsv/main.go:22-28 | A sequence of rows, each in a slice of its own, is written as exactly the stream that the reader recovers. |
| Tsv.ScanEncoded | encoding/tsv/main.go:30-41 | An encoded value scans back as the value, whatever it contains and whatever follows. |
| Tsv.ReadsBack | encoding/tsv/main.go:22-28 | A quote-doubling reader recovers the rows of any stream, an empty row as one empty value. |
| Tsv.NonEmptyRowsReadBack | encoding/tsv/main.go:22-41 | For non-empty rows it recovers exactly the rows passed to `WriteRow`. |
| Tsv.SameBytesSameRows | encoding/tsv/main.go:22-41 | Two lists of rows give the same bytes if and only if they are equal up to empty rows. |
| Tsv.EmptyRowIsWrittenAsEmptyValue | encoding/tsv/main.go:22-28 | The shortest two lists that give the same bytes. |
| Tsv.QuotedOnlyWhereNeeded | encoding/tsv/main.go:30-41 | A value without line breaks, tabs, backslashes and quotes is written as it is, and every other one in quotes. |
| Tsv.DoubledAppends | encoding/tsv/main.go:36-38 | Inside quotes the characters are written one by one. |
| Tsv.DoubledCharacter | encoding/tsv/main.go:36-38 | A quote is doubled, any other character stays. |
| Tsv.LinesHaveTabs | encoding/tsv/main.go:22-28 | Values are separated by tabs and rows end with a line feed. |

## Left out

- Postgres itself: isolation anomalies, lost connections and re-checks of locked rows; a statement that fails aborts its transaction.
- The second transaction around a worker's callback, its result and its `commit_error` text: foreign code with arbitrary values here.
- Database errors of `Queue.add` and the JSON encoding of its argument; a failing `DebounceMerge` is modelled.
- A panic inside `getPredictedStart`, which ends the scheduler goroutine for good.
- Data races on `WorkerInfo` fields that an application changes after registration.
- A transaction body that recovers from a callback's panic and goes on; a driver that panics.
- Rounding of floating-point tokens and clocks that go backwards between reading the time and taking the lock; tokens and times are reals in lock order.
- Bounds and forgetting for a refill interval of zero or less, where the methods are modelled but limit nothing in time.
- The `Stop` of the keyed limiter.
- Timeouts of `TakeContext` and `WaitTake`: their grants are the grants of `Take`.
- Everything of the PDF printer but the slot, mutex and drain protocol, and changes of `MaxConcurrentRenders` while it runs. On a failed setup the browser is closed under other renders; no theorem says otherwise.
- The civil calendar and daylight saving: a date is a day number, and a holiday that is no civil date matches none.
- 32-bit platforms in currency parsing.
- HTTP, cookies, email, storage, logging, migrations, statistics and the remaining list functions of jv.
