# Verified model of cloud-microservices

This project models the concurrent and the recovering parts of the cloud-microservices framework
and proves what they promise, over every schedule and every run:

* **The C++ thread pool and the square-sum calls sharing it** (`PoolModel`, `PoolInvariants`,
  `PoolTheorems`, `PoolProgress`, `ThrownCall`, `ThreadPool`, `SquareSum`). Any number of worker threads and any
  number of calls interleave arbitrarily. The pool mutex and each call's accumulator mutex have
  explicit owners, the accumulator is read and written in two separate steps, the condition variable
  may wake workers spuriously, and the destructor may start at any moment. `ThreadPool.Pool` is the
  pool's shared state with its locked blocks as methods, each proved to be the step of the transition
  system it stands for; `SquareSum` holds the chunk loop on 64-bit sizes and the summation loop.
* **The queue pipeline of service-a** (`QueuePipeline`, `PipelineOrder`, `PipelineRun`): a FIFO queue with join
  accounting, consumers scheduled in any order, a failure list, cancellation after the join.
* **The thread-pool flavour** (`ExecutorMap`): the executor's `map` with its threads scheduled in any
  order, results collected in input order, and cancellation after the first failure collected.
* **The semaphore-bounded fan-out under its retry loop** (`FanOut`, `FanOutReplies`, `FanOutProgress`,
  `FanOutPeak`, `Retry`): each attempt has a fresh semaphore, and the requests of a failed attempt keep
  running during later ones. What the downstream service replies, and when, is arbitrary; the results are
  stated in terms of the requests and replies of the run.
* **The recovery watcher** (`Recovery`, `RecoveryWatcher`, `ClosedLoop`): its behaviour in closed form,
  the object that implements it, and the watcher against an environment that stops containers.
* **Agreement** (`Agreement`): the three flavours of service-a and the C++ worker give one result, and
  what that means for the responses of `/process`.

Numbers the program keeps in `double` are `real` here, so the sums are exact. Library semantics are
taken as step rules: `wait` releases the mutex and blocks in one step, and `notify_one` unblocks one
blocked waiter if there is one (C++17, section 33.5.3, class `condition_variable`); coroutines switch
only at `await`; `gather` raises when the first task has failed and leaves the other tasks running;
an executor's `map` submits everything first and cancels what has not started once a result it is
asked for is a failure, and leaving its `with` block waits for its threads.

## How the pool argument fits together

`PoolInvariants.Inv` is inductive (`StepInv`, `ReachableInv`). Its parts are counted with sums over the
queue, the workers and the calls: every submitted job whose future is not ready is in exactly one place;
accumulator, partial sums in workers' hands, squares still queued and items not yet submitted add up to
the whole sum; while a worker sleeps, queued jobs are outnumbered by wakeups under way. `PoolProgress`
adds a measure that every step uses up except new calls and spurious wakeups of a running pool, and shows
that a state with unfinished business always has a step. Together, `EveryRunCompletes` and
`SomeRunCompletes`: from every reachable state, a run without new calls, spurious wakeups and a
starting destructor is no longer than the work left, and where it cannot go on every call has returned
its own exact sum or was refused by a stopped pool; and there is such a run.

## What does not hold, and when it does

* `fan_out_to_service_b` documents `concurrency` as the maximum number of concurrent in-flight requests
  (`services/service-a/app/worker.py:44`). Under the retry loop of `/process` this holds exactly when there is
  one attempt, at most one item, or a configured number above attempts x (items - 1): `FanOutPeak.ConcurrencyAcrossRetries`.
  With two items, a limit of one and three attempts there can be three at once: `FanOutPeak.LimitOneExceeded`.
* A call's captured locals outlive the jobs that use them when the call returns (`PoolTheorems.CapturedLocals`).
  When `Submit` throws in the middle of the submission loop they need not, and the caller can tell
  beforehand: a job can be left behind if and only if the items are cut into two or more chunks, that is, for
  two or more items on two or more threads (`ThrownCall.DanglesExactly`). Two items on two threads are the
  instance `ThrownCall.ThrownCallLeavesJobs`. The pool's own comment forbids this use
  (`services/cpp-worker/src/thread_pool.hpp:10-11`).

## Model

| member | source | states |
|---|---|---|
| SquareSum.PartialSum | services/cpp-worker/src/main.cpp:142-145 | a job's summation loop gives the sum of squares of exactly its range |
| SquareSum.ChunkSizeIsLeast | services/cpp-worker/src/main.cpp:129-130 | the chunk size is the least with which the workers' chunks cover all items, and is between 1 and n for n >= 1 |
| SquareSum.ChunkGuard | services/cpp-worker/src/main.cpp:135-139 | loop bound and early break together stop exactly at ceil(n / chunk) iterations, at most `workers`, and nothing is left uncovered |
| SquareSum.ChunkBounds | services/cpp-worker/src/main.cpp:136-140 | every submitted chunk is non-empty, inside the items, ends where the next starts; the last ends at n |
| SquareSum.ChunksPartition | services/cpp-worker/src/main.cpp:130-140 | an item index lies in chunk w if and only if w is its quotient by the chunk size |
| SquareSum.ChunkRangesPartition | services/cpp-worker/src/main.cpp:135-141 | the ranges are consecutive and non-empty from 0 to n, at most `workers` of them |
| SquareSum.NoWrapInIteration | services/cpp-worker/src/main.cpp:136-140 | in every iteration reached, `w * chunk` and `start + chunk` stay below 2n and do not wrap around 2^64 |
| SquareSum.SubmitRanges | services/cpp-worker/src/main.cpp:129-141 | the loop on sizes modulo 2^64 yields the ranges of exact arithmetic, and they partition the items, for up to 2^63 items and threads |
| SquareSum.ComputeSquareSum | services/cpp-worker/src/main.cpp:124-154 | run one job after another, the function gives the sum of squares of all items, 0 for none |
| PoolInvariants.LiveWorker | services/cpp-worker/src/thread_pool.hpp:97-103 | every worker step keeps each unfulfilled job in exactly one place |
| PoolInvariants.WorkerInv | services/cpp-worker/src/thread_pool.hpp:91-105 | every worker step keeps the whole invariant |
| PoolInvariants.CallerInv | services/cpp-worker/src/main.cpp:135-153 | every step of a square-sum call, Submit included, keeps the whole invariant |
| PoolInvariants.DtorInv | services/cpp-worker/src/thread_pool.hpp:53-64 | every step of the destructor keeps the whole invariant |
| PoolInvariants.ConservedWorker | services/cpp-worker/src/main.cpp:141-148 | accumulator + partials in workers' hands + queued + unsubmitted squares stays the whole sum under every worker step |
| PoolInvariants.AllReadySum | services/cpp-worker/src/main.cpp:150-153 | when all futures are ready the accumulator is the whole sum |
| PoolInvariants.WakeWorker | services/cpp-worker/src/thread_pool.hpp:95-102 | every worker step keeps: while someone sleeps, queued jobs <= pending notifications + awakened workers |
| PoolInvariants.WakeCaller | services/cpp-worker/src/thread_pool.hpp:75-82 | so does every step of a submitter, between push and notification |
| PoolInvariants.StepInv | services/cpp-worker/src/thread_pool.hpp:53-105 | the invariant is inductive |
| PoolInvariants.ReachableInv | services/cpp-worker/src/thread_pool.hpp:37-45 | it holds in every state any run of a pool of at least one thread reaches |
| PoolTheorems.SharedPoolResult | services/cpp-worker/src/main.cpp:124-154 | any number of calls on one pool, any interleaving: a call that returns gives the exact sum of squares of its own items |
| PoolTheorems.SharedPoolRun | services/cpp-worker/src/main.cpp:124-154 | its own items are those it began with: in any run the c-th call to begin can only return the sum of the squares it was given |
| PoolTheorems.Surroundings | services/cpp-worker/src/thread_pool.hpp:37-64 | at any moment any call may begin, any sleeping worker may wake up spuriously and the destructor may start when the mutex is free; the number of threads stays as constructed |
| PoolTheorems.WakesAtMostOne | services/cpp-worker/src/thread_pool.hpp:82 | no step but the destructor's notification wakes more than one sleeping worker |
| PoolTheorems.NoLostWakeup | services/cpp-worker/src/thread_pool.hpp:71-104 | no lost wakeup: the bound above in every reachable state, so a queued job never meets a pool where all sleep and nobody is about to notify |
| PoolTheorems.CapturedLocals | services/cpp-worker/src/main.cpp:131-153 | after a return no queued or running job refers to the call's locals and its mutex is free; where a finished call is still referred to, Submit threw on a stopped pool after at least one job and before the last chunk |
| ThrownCall.DanglesExactly | services/cpp-worker/src/thread_pool.hpp:75-81 | for all items and pool sizes: some run leaves a job that refers to a finished call's locals if and only if the items make two or more chunks, if and only if there are two items and two threads or more |
| ThrownCall.ThrownCallLeavesJobs | services/cpp-worker/src/main.cpp:135-148 | the instance of two items on two threads |
| PoolTheorems.SubmittedChunks | services/cpp-worker/src/main.cpp:135-149 | a call past its loop has had exactly its chunks accepted by the pool, in order, partitioning its items |
| PoolTheorems.ExactlyOnceInOrder | services/cpp-worker/src/thread_pool.hpp:80-103 | no job is accepted twice, jobs are popped in push order, a popped job is done or held by exactly one worker |
| PoolTheorems.JoinMeansDrained | services/cpp-worker/src/thread_pool.hpp:53-64 | when the destructor is through, all threads have left, the queue is empty and every accepted job has been run |
| PoolTheorems.StoppedStep | services/cpp-worker/src/thread_pool.hpp:77-100 | after stop nothing is accepted and no worker goes to sleep |
| PoolTheorems.MutualExclusion | services/cpp-worker/src/main.cpp:146-147 | the recorded owner is exactly the one thread inside a locked block of the pool, and no two workers own one call's accumulator mutex (that no worker holds both kinds is so by construction of the control points) |
| PoolProgress.NoDeadlock | services/cpp-worker/src/main.cpp:135-152 | while a call has not finished, some thread has a step other than a new call, a spurious wakeup or starting the destructor |
| PoolProgress.ShutdownMoves | services/cpp-worker/src/thread_pool.hpp:53-64 | a stopped pool always has such a step until the join loop is through |
| PoolProgress.RestIsComplete | services/cpp-worker/src/thread_pool.hpp:53-105 | wherever the system rests, all accepted work is done, every call returned its sum or was refused, and a started destructor has finished |
| PoolProgress.WorkerWorks | services/cpp-worker/src/thread_pool.hpp:91-105 | every worker step uses up work, except a spurious wakeup of a running pool, which costs 2 |
| PoolProgress.StepWorks | services/cpp-worker/src/main.cpp:135-153 | every step uses up at least one unit of work beyond what the environment adds |
| PoolProgress.RunBounded | services/cpp-worker/src/thread_pool.hpp:53-105 | no run is longer than the work at its start plus what new calls and spurious wakeups add |
| PoolProgress.ShutdownTerminates | services/cpp-worker/src/thread_pool.hpp:53-64 | a stopped pool without further calls ends within that many steps, spurious wakeups included |
| PoolProgress.EveryRunCompletes | services/cpp-worker/src/thread_pool.hpp:53-105 | from every reachable state a run without new calls, spurious wakeups and a starting destructor has at most as many steps as there is work left, and where it cannot be continued everything is done |
| PoolProgress.SomeRunCompletes | services/cpp-worker/src/thread_pool.hpp:53-105 | and there is such a run to completion |
| ThreadPool.Pool.Create | services/cpp-worker/src/thread_pool.hpp:37-45 | zero threads are refused; otherwise that many threads are spawned, each at the top of its loop, the queue is empty and not stopped, and the pool is in the initial state of the transition system |
| ThreadPool.Pool.Push | services/cpp-worker/src/thread_pool.hpp:75-81 | the locked block of Submit appends the job or throws when stopped, and is that step of the transition system |
| ThreadPool.Pool.Next | services/cpp-worker/src/thread_pool.hpp:94-102 | a worker's locked block pops the front, leaves only when stopped and empty, never blocks when stopped, and is that step |
| ThreadPool.Pool.Stop | services/cpp-worker/src/thread_pool.hpp:54-57 | the destructor's locked block sets the flag, keeps the queue, and is that step |
| QueuePipeline.StepInv | services/service-a/app/worker.py:99-131 | every step of consumers and caller keeps join accounting, order, single holding, slots and failure accounting |
| QueuePipeline.JoinMeansIdle | services/service-a/app/worker.py:99-127 | unfinished = queued + held always; `task_done` never underflows; after the join nobody holds an item and no cancellation lands in the work function |
| QueuePipeline.SlotWrittenOnce | services/service-a/app/worker.py:106 | a slot about to be written is empty |
| QueuePipeline.RefinesMap | services/service-a/app/worker.py:95-131 | for every worker count and schedule it returns if and only if no item fails, with the work function's values in input order and the fallback unused |
| PipelineOrder.HandedOutInOrder | services/service-a/app/worker.py:102-122 | the k-th `get` of a run, whichever consumer calls it, hands out item k |
| PipelineOrder.RaisesFirstFailure | services/service-a/app/worker.py:105-130 | it raises if and only if some item fails, and then the error of the first item in the run to finish with a failure; every item was handed out and finished exactly once; as many failures are recorded as items fail |
| PipelineOrder.AnyOrder | services/service-a/app/worker.py:99-120 | any consumer that holds nothing can be the next to take an item, any at work the next to finish |
| PipelineOrder.ConsumerCount | services/service-a/app/worker.py:118-120 | there are max(1, workers) consumers at every moment |
| PipelineOrder.AllAtOnce | services/service-a/app/worker.py:118-120 | min(max(1, workers), items) of them can be at work at once |
| QueuePipeline.StepWorks | services/service-a/app/worker.py:99-127 | twice the queued plus held items, and the rest of the wind-down, shrink on every step |
| QueuePipeline.NeverStuck | services/service-a/app/worker.py:118-127 | a pipeline that has not answered has a step |
| QueuePipeline.EverySchedule | services/service-a/app/worker.py:118-131 | every schedule has at most 2 steps per item, 1 per consumer and 2 more, and ends in an answer |
| PipelineRun.Shared.constructor | services/service-a/app/worker.py:95-122 | the enqueuing loop puts every item with its position, in order, all results are missing and no failure is recorded, which is the initial state for every worker count |
| PipelineRun.Shared.Get | services/service-a/app/worker.py:102 | `get` removes the front of the queue and hands it out, which is that step |
| PipelineRun.Shared.Complete | services/service-a/app/worker.py:105-116 | a value goes to its slot, a failure to the end of the failure list, the unfinished count goes down by one and nothing else changes, which is that step |
| PipelineRun.Shared.Answer | services/service-a/app/worker.py:129-131 | raises the first failure of the list, or returns the results in place with missing ones as 0 |
| ExecutorMap.StepInv | services/service-a/app/worker.py:154-155 | every step of the executor's threads and of the caller keeps order, single holding, results and what has been collected |
| ExecutorMap.RefinesMap | services/service-a/app/worker.py:134-155 | for every number of threads and every schedule it returns if and only if no item fails, with the work function's values in input order; otherwise it raises the failure of the first failing item in input order, and nothing is left queued or running |
| ExecutorMap.WorkedOnOnce | services/service-a/app/worker.py:154-155 | no two threads work on one item, and a result about to be set is missing |
| ExecutorMap.StartedInOrder | services/service-a/app/worker.py:154-155 | the k-th item taken in a run, by whichever thread, is item k |
| ExecutorMap.NothingStartsAfterFailure | services/service-a/app/worker.py:154-155 | once a failure has been collected nothing further is started and the error stays |
| ExecutorMap.ThreadCount | services/service-a/app/worker.py:154 | there are max(1, workers) threads at every moment |
| ExecutorMap.AllAtOnce | services/service-a/app/worker.py:154-155 | min(max(1, workers), items) of them can be at work at once |
| ExecutorMap.EverySchedule | services/service-a/app/worker.py:154-155 | every schedule has at most 4 steps per item and 4 more, and comes to rest only with an answer |
| Retry.RetryAsync | shared/utils.py:108-134 | calls stop at the first outcome that is not retryable or at the limit; that call's value is returned or its error raised, a retryable one only at the limit; each of the c-1 sleeps is the backoff plus jitter, with jitter in [0, b] the time slept obeys the bounds below, the final raise is unreachable |
| Retry.BackoffIsMinimum | shared/utils.py:122 | the i-th backoff is min(M, b 2^(i-1)) for base b and cap M |
| Retry.StopsOnce | shared/utils.py:114-121 | there is exactly one stopping call for every outcome sequence |
| Retry.SleepBounds | shared/utils.py:122-131 | the time of n sleeps lies between the plain backoff and that plus n b, and below n M + n b and b 2^n - b + n b, for base b and cap M |
| Retry.DoubledIsPower | shared/utils.py:122 | the base doubled n times, in which the backoff and its ceiling are written, is b 2^n |
| Retry.UncappedBackoff | shared/utils.py:122 | while the cap is not reached the plain backoff of n sleeps is exactly b 2^n - b |
| Retry.CappedBackoff | shared/utils.py:122 | where the cap is reached after m sleeps, it is exactly b 2^m - b + (n - m) M from there on |
| FanOut.StepInv | services/service-a/app/worker.py:55-69 | whatever the answers, permits, recorded failures and verdicts stay consistent over all attempts |
| FanOut.BoundedPerAttempt | services/service-a/app/worker.py:55-66 | within an attempt permits + in-flight requests = the configured concurrency, or 1 where that is less |
| FanOutReplies.RefinesRetriedMap | services/service-a/app/main.py:100-108 | the run is the retry loop over its attempts, told by the replies: every attempt but the last had an HTTP error as its first error; on success the list holds the replies of the last attempt in input order, the squares if and only if service-b squared; otherwise its first error is raised, an HTTP error only if no attempt was left |
| FanOutReplies.VerdictsTold | services/service-a/app/worker.py:57-69 | every gather so far ended as the replies of its attempt say: all numbers sent, in input order, or the first error sent, retryable if and only if it is an HTTP error |
| FanOutReplies.InFlightIsOutstanding | services/service-a/app/worker.py:57-66 | requests in flight are those sent and not yet answered, per attempt and in all |
| FanOutReplies.SentAndAnsweredOnce | services/service-a/app/worker.py:57-69 | in an attempt each item's request is sent at most once and answered at most once, after it was sent |
| FanOutReplies.AnyReply | services/service-a/app/worker.py:58-66 | a request that was sent may be answered with anything at any moment |
| FanOut.InFlightBounded | services/service-a/app/main.py:92-108 | over the whole retried call never more requests in flight than the sharper peak, which is at most attempts x the configured concurrency (1 where that is less) |
| FanOutProgress.EverySchedule | services/service-a/app/worker.py:55-69 | every schedule of the retried fan-out has at most attempts x (2 x items + 2) steps and comes to rest only finished, provided requests are answered |
| FanOutPeak.PeakAttained | services/service-a/app/main.py:92-108 | the peak of requests sent and not yet answered is reached by some run and exceeded by none |
| FanOutPeak.ConcurrencyAcrossRetries | services/service-a/app/worker.py:44-55 | the configured concurrency (1 where that is less) bounds the requests sent and not yet answered in every run of a retried call if and only if attempts = 1, or at most one item, or it is above attempts x (items - 1) |
| FanOutPeak.LimitOneExceeded | services/service-a/app/main.py:101-108 | with two items, limit 1 and 3 attempts, three requests can be in flight |
| Recovery.ExactBehaviour | orchestration/recovery.py:122-164 | for every probe trace the counter is the trailing failure run mod k; there is one event and one attempt for each k-th failure of a run, sum of floor(run / k) of them; each event has its probe's detection time, success as `docker start` answered, a recovery time if and only if it succeeded, and the duration of the start |
| Recovery.PointsExact | orchestration/recovery.py:127-144 | the recovery points are, in order, exactly the failed probes at which the failure run is a multiple of k |
| Recovery.TrailingRunMaximal | orchestration/recovery.py:127-136 | the trailing run is the maximal suffix of failures |
| Recovery.FailuresConserved | orchestration/recovery.py:134-164 | k x events + counter <= failed probes, and the counter stays below k |
| Recovery.NonInterference | orchestration/recovery.py:84-88 | a multi-service run is, for each service, the run on its own probes alone |
| Recovery.MergedHistory | orchestration/recovery.py:95-100 | the merged history is sorted, holds each recovery once, and is the chronological log when detection times strictly increase |
| Recovery.LogKeepsServiceOrder | orchestration/recovery.py:149-162 | the log restricted to a service is that service's own history |
| Recovery.MergedKeepsServiceOrder | orchestration/recovery.py:97-100 | even with equal times the merged history keeps each service's own order |
| Recovery.WatcherExact | orchestration/recovery.py:81-164 | all of it for any target list, repeated names included: closed form per service on its own probes, and a history that holds every recovery once, by time, ties in target order, each service's own order kept, and is the log under strictly increasing times |
| RecoveryWatcher.Watcher.constructor | orchestration/recovery.py:81-88 | one fresh runtime per distinct name, at the place of its first occurrence, all counters 0 |
| RecoveryWatcher.Watcher.AllEvents | orchestration/recovery.py:95-100 | concatenates the lists in dictionary order and sorts by time |
| RecoveryWatcher.Watcher.Recover | orchestration/recovery.py:146-164 | appends one event with the detection time, success as `docker start` answered, the recovery time only then, and the duration; resets the counter and counts the attempt either way |
| RecoveryWatcher.Watcher.HandleResult | orchestration/recovery.py:125-144 | one result changes its own service's entry as specified and no other |
| RecoveryWatcher.Watcher.Tick | orchestration/recovery.py:122-144 | a tick changes the table result by result as specified |
| RecoveryWatcher.Watcher.Run | orchestration/recovery.py:102-119 | the loop digests all ticks up to and including the first after which a stop is requested, and none if stopped before |
| RecoveryWatcher.Watcher.Session | orchestration/recovery.py:67-119 | the object created, run and asked for its history: each runtime has the closed form of its own probes in the ticks digested, and the history accounts for every recovery |
| ClosedLoop.PlaySound | orchestration/recovery.py:111-144 | under any play of stops, samples and digests counters stay below k |
| ClosedLoop.DigestsAll | orchestration/recovery.py:124-144 | digesting a tick's results one by one leaves the table of the watcher's tick |
| ClosedLoop.RecoveryTime | orchestration/recovery.py:127-151 | a container down with counter c is up after m undisturbed ticks if and only if m >= k - c; one that is up stays up |
| ClosedLoop.BoundedRecovery | orchestration/recovery.py:111-151 | after any play, k undisturbed ticks bring every container up, and it stays up |
| ClosedLoop.StopTakesDown | services/fault-injector/app/injector.py:114-131 | a stop at any moment of any play takes down that container and no other, and leaves the watcher's table and pending results as they are |
| ClosedLoop.StoppedIsBack | orchestration/recovery.py:111-151 | a container stopped between two ticks after any play, its counter at c, is up after m undisturbed ticks if and only if m >= k - c |
| Agreement.QueueSquares | services/service-a/app/main.py:151-162 | every schedule of the queue flavour with a squaring work function returns the squares |
| Agreement.QueueAgreesWithExecutor | services/service-a/app/worker.py:72-155 | queue pipeline and executor's map with any one work function both return or both raise, under any schedules and worker counts, and return one list |
| Agreement.FlavoursAgree | services/service-a/app/main.py:100-197 | fan-out with a service-b that squares, queue pipeline and executor's map give one list, and its square-sum aggregate is what the C++ call returns, under any schedules |
| Agreement.ResponseErrors | services/service-a/app/main.py:100-125 | 502 if and only if every attempt allowed was made and the first error reply in each was an HTTP error, an uncaught error if and only if the first error reply of the last was something else, 400 if and only if the last had no error and the operation is unknown |
| Agreement.ResponseFigures | services/service-a/app/main.py:77-135 | the list is what service-b replied in the last attempt, the result its aggregate (mean times count is the total), the C++ figure is there for a square sum that reached it and is the sum of squares, so the two are one number when service-b squared |

## Left out

- HTTP, JSON, request validation, middleware, logging, metrics scraping and gateway proxying: library plumbing.
- Floating-point rounding: the merge order of partial sums changes the last digits of a `double`, not of a `real`.
- Memory after the pool's own destruction: the model keeps the pool's fields so that late calls are refused, where the program's behaviour is undefined.
- Metrics: the C++ and Python request counters (`Record`, `Snapshot`) are single locked updates, and the snapshot is not an atomic view.
- Work functions that return nothing or leave through something other than `Exception`, and exceptions from `docker`: outside the runs described.
- SquareSum.ComputeSquareSum: each job runs to its end before the next is submitted; all other schedules are PoolTheorems.SharedPoolResult.
- ExecutorMap.RefinesMap: the executor's own locks and the creation of its threads on demand are library internals; a thread not created yet is one that has not moved.
- ClosedLoop.BoundedRecovery: containers are named like their targets, distinct names have distinct containers, and `docker start` succeeds at once; with a start that fails the exact behaviour above still says when the next attempt comes.
- Recovery.MergedHistory: times are integer stamps and the duration is the number recorded, its rounding left out; the action, the same text in every event, is not kept.
- Retry.RetryAsync: the calls' outcomes and the jitter are arbitrary functions of the call number; sleeping itself is left out.
- RecoveryWatcher.Watcher.Run: the probes of a tick and the moment of a stop request are inputs.
- Agreement.ResponseFigures: a C++ worker that answers without a number is not part of this model; one that is unreachable or answers with an error is.
- The key-value store, fault injector state, environment helpers and health-check printing: each is one branch or one locked dictionary operation.
