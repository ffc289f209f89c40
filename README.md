# Page-job executor

A Dafny model of the `jobexecutor` module's page-job executor, `PageProviderExecutor`, and
of its aggregate status type `State`.

The executor turns page requests into jobs:

- `loadInitialPage(callback)` and `loadPage(n, callback)` submit a job.
- Jobs wait in a FIFO queue. At most one provider call is in flight at a time.
- When the provider answers with success, the job's own callback receives exactly the
  record the provider produced.
- When the provider answers with a failure, the job joins an ordered failed-job store.
- `retryFailedJobs()` puts the stored jobs back in front of the queue, earliest failure
  first, and empties the store.
- The observer is told `Loading` whenever a job starts. It is told `Loaded` or
  `Failed(cause)` only when a job answers with nothing left in the queue. Success or
  failure in the middle of a burst is absorbed.

The executor's implementation is not reproduced line by line; its behaviour is rebuilt
from its test suite, `PageProviderExecutorTest.kt`, and from `State.kt`.

Files:

- `states.dfy` (module `States`): `State<C>` as a datatype, with lemmas for its four cases.
- `executor.dfy` (module `PageProviderExecutor`): the executor as a class `Executor<I, F, C>`.
  - Its fields are the queue, the job in flight, the failed-job store (job and cause) and
    the next callback id.
  - It also keeps three logs: provider calls made (`issued`), statuses sent to the observer
    (`emitted`), and success-callback invocations (`delivered`).
  - A callback is identified by the id that `LoadInitialPage`/`LoadPage` returns.
- `executor_tests.dfy` (module `PageProviderExecutorTests`): each test of the suite as a
  client method.
  - Each method drives a fresh executor and returns what the test inspects.
  - Its postconditions are the test's verifications.
  - A generalised burst scenario, `SuccessfulBurst`, is added.

The class invariant `Valid()` states the following:

- Single flight: every provider call but the last has answered, and an unanswered last
  call is the call of the job in flight.
- The observer hears nothing before the first job starts, and never `NotStarted`
  afterwards.
- The status reads `Loading` exactly while a call is in flight.
- An idle executor has nothing queued.
- Every callback handed out is accounted for exactly once: either it has been invoked,
  or it belongs to one outstanding job (failed, in flight or queued).

By pigeonhole, the last clause gives that a callback is invoked at most once, and never
while its job is still outstanding.

## Model

| member | source | states |
|---|---|---|
| `States.ClosedSet` | jobexecutor/src/main/kotlin/com/example/radek/jobexecutor/State.kt:3-8 | every status is one of `NotStarted`, `Loading`, `Loaded` or `Failed` of its own cause |
| `States.PayloadFreeSingletons` | jobexecutor/src/main/kotlin/com/example/radek/jobexecutor/State.kt:4-6 | two `NotStarted`, two `Loading` or two `Loaded` values are equal |
| `States.FailedCarriesCause` | jobexecutor/src/main/kotlin/com/example/radek/jobexecutor/State.kt:7 | `Failed(c)` is a failure, and its `cause` reads back `c` |
| `States.CasesDistinct` | jobexecutor/src/main/kotlin/com/example/radek/jobexecutor/State.kt:3-7 | the three payload-free cases differ pairwise, and `Failed(c)` equals none of them |
| `PageProviderExecutor.Executor.CallbacksDistinct` | jobexecutor/src/test/kotlin/com/example/radek/jobexecutor/PageProviderExecutorTest.kt:100-110 | in any consistent state, the invoked callbacks and the callbacks of the outstanding jobs are exactly the ids handed out so far, each once |
| `PageProviderExecutor.Executor.InvokedAtMostOnce` | jobexecutor/src/test/kotlin/com/example/radek/jobexecutor/PageProviderExecutorTest.kt:142-143 | no callback is invoked twice, and the callbacks of the job in flight and of the queued jobs have not been invoked yet |
| `PageProviderExecutor.Executor.constructor` | jobexecutor/src/test/kotlin/com/example/radek/jobexecutor/PageProviderExecutorTest.kt:30-35 | a fresh executor with observer and provider attached: nothing queued, in flight or failed, nothing emitted, called or delivered, status `NotStarted` |
| `PageProviderExecutor.Executor.Pump` | jobexecutor/src/test/kotlin/com/example/radek/jobexecutor/PageProviderExecutorTest.kt:139-140 | on an idle executor with a non-empty queue, the head starts: its provider call is made and `Loading` is emitted; otherwise nothing changes |
| `PageProviderExecutor.Executor.Submit` | jobexecutor/src/test/kotlin/com/example/radek/jobexecutor/PageProviderExecutorTest.kt:119-122 | the new job gets a fresh callback id; on an idle executor it starts at once (one provider call, `Loading` emitted); on a busy one it waits at the back of the queue with no call and no emission |
| `PageProviderExecutor.Executor.LoadInitialPage` | jobexecutor/src/test/kotlin/com/example/radek/jobexecutor/PageProviderExecutorTest.kt:37-43 | submits the `Initial` request with the effect stated for `Submit` |
| `PageProviderExecutor.Executor.LoadPage` | jobexecutor/src/test/kotlin/com/example/radek/jobexecutor/PageProviderExecutorTest.kt:112-123 | submits `Page(n)`, `n` passed through, with the effect stated for `Submit` |
| `PageProviderExecutor.Executor.Advance` | jobexecutor/src/test/kotlin/com/example/radek/jobexecutor/PageProviderExecutorTest.kt:74-98 | after the job in flight has answered: with nothing queued, the terminal status is emitted and nothing is called; otherwise the head of the queue starts and nothing else is emitted |
| `PageProviderExecutor.Executor.ProviderSucceeds` | jobexecutor/src/test/kotlin/com/example/radek/jobexecutor/PageProviderExecutorTest.kt:100-110 | the job in flight's own callback receives the provider's record, appended once to the delivery log; `Loaded` is emitted only if the queue was empty, and otherwise the next job starts |
| `PageProviderExecutor.Executor.ProviderFails` | jobexecutor/src/test/kotlin/com/example/radek/jobexecutor/PageProviderExecutorTest.kt:146-161 | the job in flight joins the failed-job store behind the earlier failures, with its cause; no success callback is invoked (`delivered` is unchanged); `Failed(cause)` is emitted only if the queue was empty, and otherwise the next job starts |
| `PageProviderExecutor.Executor.RetryFailedJobs` | jobexecutor/src/test/kotlin/com/example/radek/jobexecutor/PageProviderExecutorTest.kt:184-186 | the store is emptied and no callback is invoked; on an idle executor, the earliest failure starts at once (its request is the single call made) and the rest queue in failure order; on a busy one, the failed jobs, in failure order, join the waiting jobs, in their FIFO order, either in front of them or behind them, and nothing is called or emitted; with an empty store nothing changes |
| `PageProviderExecutorTests.ProgressStatusEmittedWhenJobStarts` | jobexecutor/src/test/kotlin/com/example/radek/jobexecutor/PageProviderExecutorTest.kt:37-43 | after `loadInitialPage` the observer has heard exactly `Loading` |
| `PageProviderExecutorTests.SuccessStatusEmittedWhenJobSucceeds` | jobexecutor/src/test/kotlin/com/example/radek/jobexecutor/PageProviderExecutorTest.kt:45-57 | a lone job answered with success: the observer hears `Loading` then `Loaded` |
| `PageProviderExecutorTests.FailureStatusEmittedWhenLoneJobFails` | jobexecutor/src/test/kotlin/com/example/radek/jobexecutor/PageProviderExecutorTest.kt:59-72 | a lone job answered with a failure: the observer hears `Loading` then `Failed` of that exception |
| `PageProviderExecutorTests.NoFailureStatusWhileJobsQueued` | jobexecutor/src/test/kotlin/com/example/radek/jobexecutor/PageProviderExecutorTest.kt:74-85 | the first job fails while page 2 is queued: no `Failed` is ever emitted, only `Loading` for each job start |
| `PageProviderExecutorTests.NoSuccessStatusWhileJobsQueued` | jobexecutor/src/test/kotlin/com/example/radek/jobexecutor/PageProviderExecutorTest.kt:87-98 | the first job succeeds while page 2 is queued: no `Loaded` is ever emitted, only `Loading` for each job start |
| `PageProviderExecutorTests.LoneJobDeliversResult` | jobexecutor/src/test/kotlin/com/example/radek/jobexecutor/PageProviderExecutorTest.kt:100-110 | the lone job's callback is invoked once, with exactly the provider's record |
| `PageProviderExecutorTests.SecondJobWaits` | jobexecutor/src/test/kotlin/com/example/radek/jobexecutor/PageProviderExecutorTest.kt:112-123 | with page 2 submitted behind the initial page, the initial request is the one call made and page 2 is not requested |
| `PageProviderExecutorTests.SecondJobRunsAfterFirstSucceeds` | jobexecutor/src/test/kotlin/com/example/radek/jobexecutor/PageProviderExecutorTest.kt:125-144 | page 2 is not requested before the initial page answers and is requested once after it succeeds; page 2's callback receives page 2's record, and the first callback is a different one |
| `PageProviderExecutorTests.SecondJobRunsAfterFirstFails` | jobexecutor/src/test/kotlin/com/example/radek/jobexecutor/PageProviderExecutorTest.kt:146-165 | page 2 is requested once after the initial page fails; its callback receives its record and has received no earlier one; the observer hears `Loading`, `Loading`, `Loaded` and never the earlier failure |
| `PageProviderExecutorTests.FirstFailedJobResumedOnRetry` | jobexecutor/src/test/kotlin/com/example/radek/jobexecutor/PageProviderExecutorTest.kt:167-187 | after both jobs failed, the retry makes exactly one provider call, and it is the initial request |
| `PageProviderExecutorTests.QueueBurst` | jobexecutor/src/test/kotlin/com/example/radek/jobexecutor/PageProviderExecutorTest.kt:119-122 | any number of pages submitted behind the initial page in flight wait in submission order, with fresh consecutive callbacks and no provider call |
| `PageProviderExecutorTests.AnswerBurst` | jobexecutor/src/test/kotlin/com/example/radek/jobexecutor/PageProviderExecutorTest.kt:139-143 | answering each queued page in turn starts the next one, delivers each record to its own callback, and emits `Loaded` once, after the last one |
| `PageProviderExecutorTests.SuccessfulBurst` | jobexecutor/src/test/kotlin/com/example/radek/jobexecutor/PageProviderExecutorTest.kt:125-144 | for any number of pages behind the initial page, every call answered with success: the calls are made in submission order, the callbacks are pairwise different, each receives its own record, and the observer hears `Loading` per job and a single `Loaded` at the end |

## Left out

- Threads and the callback-thread race. Provider calls are entries of the `issued` log. Completions are explicit calls of `ProviderSucceeds` or `ProviderFails`. A provider that answers inside `loadInitialPage` is a completion called right after `LoadInitialPage` returns.
- The mocking framework (mocks, argument captors, `clearInvocations`). The logs and a slice of `issued` stand in for its verifications.
- The contents of response records and of exceptions. They are opaque type parameters, and the provider's trailing `String` type parameter is not modelled.
- Assigning the observer and attaching the provider. Both are folded into the constructor.
- ProviderSucceeds, ProviderFails and Pump: each is one atomic step, and `issued`, `emitted` and `delivered` are separate logs, so the model does not record the order between a job's callback, the status emission and the next provider call within one step (`Loading` before the provider call; the job's callback before the queue is tested and before `Loaded` or `Failed`).
- ProviderSucceeds, ProviderFails and Pump: a job's callback and the observer cannot call back into the executor; re-entry (a success callback calling `loadPage` while the completion is still running) is not modelled, and `Valid()`'s "status is `Loading` exactly while a call is in flight" relies on its absence.
- RetryFailedJobs: on a busy executor the contract leaves open only where the retried jobs go, in front of or behind the waiting jobs, because no test asserts it. Both orders are kept: the retried jobs stay in failure order and the waiting jobs in FIFO order. The body puts the retried jobs in front, earliest failure first.
- `State.Failed` in Kotlin is a plain class compared by reference. The datatype `Failed(cause)` is compared by its cause, so two failures with equal causes are equal here.
- Page numbers are unbounded integers. The 32-bit width of Kotlin's `Int` is not modelled, because pages are passed through without arithmetic.
- The application code is not part of this model: the list adapter, the view model, the dependency-injection wiring and the data-provider factory. None of them holds executor logic.
