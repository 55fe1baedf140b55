# Verified core of the message-queue client

This project models the parts of the client library whose correctness no single function shows, and proves
what they promise for every input, every run and every interleaving:

- **The asynchronous log path.** The lock-free bounded queue that any number of threads share, and the helper
  that turns it into a delivery guarantee.
- **The synchronisation and scheduling layer.** A recursive mutex made of two plain ones, a condition variable
  made of two semaphores and three counters, the monitor and service-thread wakeup protocol on top of the
  mutex, a timed re-entrant lock, the timer table, the timer task manager with its worker pool, and the
  compare-and-swap maximum.
- **JSON.** The order on values, string quoting, the two writers, and the paged allocator.

## How it is modelled

| module | what it is |
|---|---|
| `MpmcQueue` | the queue with unbounded counters: one atomic access per step, any number of threads |
| `MpmcAnswers` | what the true and false answers of the queue's calls mean, over runs |
| `MpmcMachine` | the same queue with counters modulo 2^64, mask indexing and signed differences; simulation |
| `MpmcRuns` | whole machine runs: first in first out below 2^63 wins, and a stale state that is reached |
| `BoundedQueue` | the queue class on real arrays, run by one thread at a time |
| `AsyncLog` | `log`, the destructor and the worker, over `MpmcQueue` |
| `AsyncWorker` | the worker's own steps: a queued message is delivered |
| `CasMax` | `compareAndIncreaseOnly` under interference |
| `CondImpl` | the semaphore-built condition variable (Windows branch) |
| `RecursiveMutex` | the recursive mutex and the condition wait that resets it (POSIX branch) |
| `ServiceThread` | wakeup, stop and waitForRunning, over `RecursiveMutex` |
| `ServiceWakeup` | what the calls of the service thread's protocol achieve, over runs |
| `ToMutex` | the timed re-entrant lock |
| `TimerThread` | the timer table as a class, 32-bit arithmetic written out |
| `TimerPool` | timeouts, works, workers and destruction in any interleaving |
| `BatchAllocator` | the allocator as a class over pages and a threaded free list |
| `JsonValue`, `JsonText`, `JsonWriters`, `JsonStyled`, `JsonAgreement` | values, text, the two writers and their agreement |
| `JsonLayout` | a scanner for the layout of a styled document, and what it finds |
| `JsonLexer`, `JsonReader` | a reader by RFC 8259 and what the documents mean |
| `Basics`, `Arithmetic`, `Threads` | shared types, ring indices, powers of two, 32-bit conversion, counting threads |

A concurrent component is a state, a step relation with one atomic access per step, and an invariant; a run is
a sequence of states and of the threads that stepped. Fields named as histories are written by steps and read by
none. Atomic operations are sequentially consistent. `pthread_cond_wait` releases its mutex and joins the wait set
in one step, as IEEE Std 1003.1 requires, and may wake at any time. Times are arbitrary; timeouts may occur at any
moment. Components that one thread runs are classes whose methods are proved against specification functions.

Where the code does not meet a property on all inputs, the exact condition is proved:

- a machine step of the queue is the word view of an unbounded step if and only if its comparison is not stale
  (`MpmcMachine.SimulatesIffFresh`); a lag just below 2^63 is not enough, since the sequence can be a further lap
  ahead of the counter, and a run reaches such a state (`MpmcRuns.StaleBelowHalf`);
- a timer fires when it is due, over a run of checks, if and only if every counted time and the period read right in
  32 bits (`TimerThread.FiresWhenDue`, and `TimerThread.FiresOnce` for a one-shot timer): from a counted time of 2^31
  on it is missed, and a delay above 2^31 or a period from 2^31 on fires it early (`TimerThread.MissedByWrapping`,
  `TimerThread.EarlyByDelay`, `TimerThread.EarlyByPeriod`);
- the allocator stays in the memory of its pages if and only if blocks divide the page and the byte size, computed in
  32 bits, covers it (`BatchAllocator.BlocksInMemoryIff`); the allocator declared for array pages fails the first
  (`BatchAllocator.ArrayPagesOverrun`), a page of 2^28 objects the second (`BatchAllocator.WrappedPageOverruns`);
- FastWriter's output means the value, and StyledWriter's size assertion holds, the two agree and its output means the
  value, if and only if every array size fits a signed integer (`JsonReader.FastRoundTrip`,
  `JsonAgreement.SameDocument`, `JsonReader.StyledRoundTrip`, `JsonReader.HugeArrayLost`, `JsonReader.HugeArrayStops`);
- a value equals itself if and only if it contains no NaN (`JsonValue.SelfEqualIff`).

The source comment on `process_next_msg` (libs/spdlog/include/spdlog/details/async_log_helper.h:163) says the
result tells whether a message was available; the code returns false only for the termination message, and the
model follows the code.

## Model

| member | source | states |
|---|---|---|
| `MpmcQueue.StepInv` | libs/spdlog/include/spdlog/details/mpmc_bounded_q.h:98-149 | every atomic step of any thread keeps the global sequence-number invariant: each cell in the window is free, being written, published with the claimed item, or being read |
| `MpmcQueue.RunInv` | libs/spdlog/include/spdlog/details/mpmc_bounded_q.h:78-149 | the invariant holds in every state of every run from the constructed queue |
| `MpmcQueue.RunSafe` | libs/spdlog/include/spdlog/details/mpmc_bounded_q.h:101-148 | in every reachable state the counters are at most one capacity apart and no two threads between winning swap and sequence store work on the same cell |
| `MpmcQueue.InFlightApart` | libs/spdlog/include/spdlog/details/mpmc_bounded_q.h:121-147 | two in-flight threads, writers or readers, are on different cells |
| `MpmcQueue.RunGrows` | libs/spdlog/include/spdlog/details/mpmc_bounded_q.h:101-147 | positions and per-cell sequences never decrease and the claim order is never rewritten |
| `MpmcQueue.ClaimStep` | libs/spdlog/include/spdlog/details/mpmc_bounded_q.h:109-138 | a winning swap takes exactly the current position, and counters move in no other way |
| `MpmcQueue.EnqClaimedOnce` | libs/spdlog/include/spdlog/details/mpmc_bounded_q.h:98-124 | every position below the enqueue counter was claimed by exactly one enqueue step |
| `MpmcQueue.DeqClaimedOnce` | libs/spdlog/include/spdlog/details/mpmc_bounded_q.h:126-149 | every position below the dequeue counter was claimed by exactly one dequeue step |
| `MpmcQueue.Fifo` | libs/spdlog/include/spdlog/details/mpmc_bounded_q.h:98-149 | a dequeue that returns position k won k itself, inside the same call, by the one dequeue step that claimed it, and returns the item of the one enqueue step that claimed k, which came first |
| `MpmcQueue.DequeuedOnce` | libs/spdlog/include/spdlog/details/mpmc_bounded_q.h:126-149 | no position is returned by two dequeue calls of a run: no duplication |
| `MpmcQueue.EnqueuedOnce` | libs/spdlog/include/spdlog/details/mpmc_bounded_q.h:98-124 | no position is returned by two enqueue calls of a run: every true answer stands for its own item |
| `MpmcAnswers.EnqClaimAnswered` | libs/spdlog/include/spdlog/details/mpmc_bounded_q.h:98-124 | after its winning swap an enqueue call holds its position until the step that leaves the call, and that step answers true with it |
| `MpmcAnswers.DeqClaimAnswered` | libs/spdlog/include/spdlog/details/mpmc_bounded_q.h:126-149 | the same of a dequeue call |
| `MpmcAnswers.EnqAnswerExact` | libs/spdlog/include/spdlog/details/mpmc_bounded_q.h:98-124 | an enqueue call that is about to answer says true exactly when it has won a position since it began, for its own item, and it has won no other; so a false answer means that it has won nothing |
| `MpmcAnswers.DeqAnswerExact` | libs/spdlog/include/spdlog/details/mpmc_bounded_q.h:126-149 | a dequeue call answers true with a position exactly when it has won that position since it began |
| `MpmcQueue.RefinesFifo` | libs/spdlog/include/spdlog/details/mpmc_bounded_q.h:98-149 | every step is an atomic append within capacity, an atomic removal of the head, or invisible to the abstract FIFO |
| `MpmcQueue.EnqFailMeans` | libs/spdlog/include/spdlog/details/mpmc_bounded_q.h:104-115 | enqueue gives up only at the current position while the item one lap earlier is not fully removed |
| `MpmcQueue.DeqFailMeans` | libs/spdlog/include/spdlog/details/mpmc_bounded_q.h:132-142 | dequeue gives up only at the current position while its item is unpublished |
| `MpmcQueue.QuietTestsExact` | libs/spdlog/include/spdlog/details/mpmc_bounded_q.h:104-144 | with nobody in flight the full and empty tests hold exactly when the queue is full or empty |
| `MpmcMachine.SignedDiffExact` | libs/spdlog/include/spdlog/details/mpmc_bounded_q.h:106-135 | the signed difference of wrapped counters is the true one if and only if that fits a signed word |
| `MpmcMachine.MaskSelects` | libs/spdlog/include/spdlog/details/mpmc_bounded_q.h:80-104 | masking a wrapped position selects the cell of the unbounded position |
| `MpmcMachine.SimulateStep` | libs/spdlog/include/spdlog/details/mpmc_bounded_q.h:98-149 | a machine step whose own comparison is not stale is the word view of an unbounded step |
| `MpmcMachine.SimulatesIffFresh` | libs/spdlog/include/spdlog/details/mpmc_bounded_q.h:98-149 | at every location and for every difference, all machine steps of a thread are word views of unbounded steps if and only if its next comparison is not stale: the sign of the difference shows in its low word, or the counter to swap has not come round to the same word |
| `MpmcMachine.FreshByLag` | libs/spdlog/include/spdlog/details/mpmc_bounded_q.h:101-147 | a position lagging by at most 2^63 less the capacity is never stale |
| `MpmcMachine.SimulateInit` | libs/spdlog/include/spdlog/details/mpmc_bounded_q.h:78-90 | the constructed machine queue is the word view of the constructed unbounded one |
| `MpmcMachine.SimulateRun` | libs/spdlog/include/spdlog/details/mpmc_bounded_q.h:98-149 | every machine run is, step for step, the word view of an unbounded run up to the first step whose own comparison is stale |
| `MpmcRuns.MirroredToEnd` | libs/spdlog/include/spdlog/details/mpmc_bounded_q.h:98-149 | a machine run that wins at most 2^63 less the capacity enqueues is the word view of an unbounded run to its end |
| `MpmcRuns.MachineFifo` | libs/spdlog/include/spdlog/details/mpmc_bounded_q.h:98-149 | in such a run a dequeue that returns position k won it itself by the one step that claimed it, and returns the item of the one earlier enqueue step that claimed k |
| `MpmcRuns.MachineDequeuedOnce` | libs/spdlog/include/spdlog/details/mpmc_bounded_q.h:126-149 | in such a run no position is returned by two dequeue calls |
| `MpmcRuns.MachineEnqAnswer` | libs/spdlog/include/spdlog/details/mpmc_bounded_q.h:98-124 | in such a run an enqueue call answers true exactly when it has won a position, for its own item |
| `MpmcRuns.MachineDeqAnswer` | libs/spdlog/include/spdlog/details/mpmc_bounded_q.h:126-149 | in such a run a dequeue call answers true exactly when it has won a position |
| `MpmcRuns.StaleBelowHalf` | libs/spdlog/include/spdlog/details/mpmc_bounded_q.h:101-115 | a run from the constructed queue reaches a state with a lag below 2^63 in which the machine reports an empty queue as full |
| `Arithmetic.PowerOfTwoTest` | libs/spdlog/include/spdlog/details/mpmc_bounded_q.h:83-84 | n & (n - 1) is zero exactly for powers of two |
| `BoundedQueue.EnqueueTest` | libs/spdlog/include/spdlog/details/mpmc_bounded_q.h:104-112 | the wrapped test of enqueue reads 0 when there is room and a negative difference when the queue is full |
| `BoundedQueue.DequeueTest` | libs/spdlog/include/spdlog/details/mpmc_bounded_q.h:132-141 | the wrapped test of dequeue reads 0 on the oldest item and -1 when the queue is empty |
| `BoundedQueue.MpmcBoundedQueue.constructor` | libs/spdlog/include/spdlog/details/mpmc_bounded_q.h:78-90 | an accepted size gives a valid empty queue of that capacity |
| `BoundedQueue.MpmcBoundedQueue.Make` | libs/spdlog/include/spdlog/details/mpmc_bounded_q.h:82-84 | construction is refused exactly for sizes below 2 or not a power of two |
| `BoundedQueue.MpmcBoundedQueue.ClaimEnqueue` | libs/spdlog/include/spdlog/details/mpmc_bounded_q.h:101-120 | the retry loop wins exactly when there is room and moves the counter by one, modulo 2^64 |
| `BoundedQueue.MpmcBoundedQueue.ClaimDequeue` | libs/spdlog/include/spdlog/details/mpmc_bounded_q.h:129-145 | the retry loop wins exactly when there is an item and moves the counter by one, modulo 2^64 |
| `BoundedQueue.MpmcBoundedQueue.Enqueue` | libs/spdlog/include/spdlog/details/mpmc_bounded_q.h:98-124 | appends the item if and only if the contents are below capacity |
| `BoundedQueue.MpmcBoundedQueue.Dequeue` | libs/spdlog/include/spdlog/details/mpmc_bounded_q.h:126-149 | removes and returns the oldest item if and only if there is one |
| `AsyncLog.StepInv` | libs/spdlog/include/spdlog/details/async_log_helper.h:192-270 | every step of loggers, destructor and worker keeps the delivery invariant over the queue's own |
| `AsyncLog.RunInv` | libs/spdlog/include/spdlog/details/async_log_helper.h:180-270 | the delivery invariant holds in every reachable state |
| `AsyncLog.SinksArePrefixes` | libs/spdlog/include/spdlog/details/async_log_helper.h:245-270 | at any moment every sink holds a prefix of the claim order, at most one message behind the removed ones |
| `AsyncLog.ExitDelivers` | libs/spdlog/include/spdlog/details/async_log_helper.h:224-262 | when the worker has exited each sink holds exactly the queued messages up to the first termination message |
| `AsyncLog.ClaimedOnce` | libs/spdlog/include/spdlog/details/async_log_helper.h:206-222 | every message of the claim order was put there by exactly one winning step of the run |
| `AsyncLog.ReturnMeansQueued` | libs/spdlog/include/spdlog/details/async_log_helper.h:206-222 | the position a returning log call took holds its message; the call won it itself, at a step inside this very call, and no other step wins it |
| `AsyncLog.ReturnTakes` | libs/spdlog/include/spdlog/details/async_log_helper.h:210-219 | under block_retry a log call that returns has taken a position |
| `AsyncLog.ReturnsApart` | libs/spdlog/include/spdlog/details/async_log_helper.h:206-222 | two different returning calls took two different positions |
| `AsyncLog.ClaimReturns` | libs/spdlog/include/spdlog/details/async_log_helper.h:206-222 | after its winning swap a log call holds the position until it returns with it: a call whose message is queued does not try again |
| `AsyncLog.LogWinsOnce` | libs/spdlog/include/spdlog/details/async_log_helper.h:206-222 | between two wins of one thread the call of the first has returned with its position, so a log call queues its message at most once |
| `AsyncLog.DiscardReturns` | libs/spdlog/include/spdlog/details/async_log_helper.h:210-219 | under discard_log_msg a log call returns after one attempt, whatever its outcome |
| `AsyncLog.RetryRepeats` | libs/spdlog/include/spdlog/details/async_log_helper.h:210-219 | under block_retry a failed attempt is followed by another one with the same message |
| `AsyncLog.LoggedIsDelivered` | libs/spdlog/include/spdlog/details/async_log_helper.h:192-270 | under block_retry a message whose log call returned before termination was requested is in every sink when the worker has exited, at the position that this call alone won and returned with: exactly once for each call, also among equal messages |
| `AsyncLog.SinkEntryClaimed` | libs/spdlog/include/spdlog/details/async_log_helper.h:245-262 | every entry of a sink comes from exactly one winning step |
| `AsyncWorker.WorkerServesHead` | libs/spdlog/include/spdlog/details/async_log_helper.h:245-270 | from a state with nobody in the middle of a queue operation and a nonempty queue, the worker's own steps bring the head into every sink and back to polling, or, at a termination message, end in its exit with the sinks unchanged |
| `CasMax.StepInv` | src/common/MixAll.cpp:41-57 | every atomic step of any caller keeps the invariant and never lowers the target |
| `CasMax.NeverDecreases` | src/kpr/AtomicValue.h:173-186 | over any run the target never decreases |
| `CasMax.EndsAtMaximum` | src/common/MixAll.cpp:41-57 | when all calls have returned the target is the maximum of its initial value and all arguments |
| `CasMax.TrueMeansInstalled` | src/common/MixAll.cpp:46-51 | a call returns true exactly when its own swap installed its value, once, and installed values strictly increase |
| `CasMax.RetryMakesProgress` | src/common/MixAll.cpp:44-54 | value - current shrinks at every retry, whatever other threads do |
| `CondImpl.StepInv` | src/kpr/Condition.cpp:42-112 | every semaphore, mutex and counter step, with timeouts, keeps the invariant |
| `CondImpl.RunCounts` | src/kpr/Condition.cpp:42-112 | m_blocked - m_unblocked counts the threads in the wait region, the gate has at most one permit, and a pending round always has a token in the queue or in flight and somebody to serve |
| `CondImpl.BroadcastStarts` | src/kpr/Condition.cpp:53-57 | a deciding broadcast closes the gate for a round that covers every thread then waiting |
| `CondImpl.BroadcastStep` | src/kpr/Condition.cpp:94-106 | a broadcast round ends only with the step that reopens the gate, and nobody is left inside then |
| `CondImpl.BroadcastReleasesAll` | src/kpr/Condition.cpp:42-112 | from a broadcast until the gate reopens every thread then waiting has left the wait region |
| `CondImpl.SignalStarts` | src/kpr/Condition.cpp:53-57 | a deciding signal closes the gate for a round of one thread |
| `CondImpl.SignalServesOne` | src/kpr/Condition.cpp:42-112 | from the deciding step of a signal until the gate reopens exactly one thread is let out |
| `RecursiveMutex.StepInv` | src/kpr/Mutex.cpp:126-272 | every step of lock, tryLock, unlock, GetOwner, reset4Condvar and the wait helper keeps the invariant |
| `RecursiveMutex.OwnerHolds` | src/kpr/Mutex.cpp:126-255 | whenever m_internal is free and m_count is positive exactly the owner holds m_mutex and m_count is its nesting depth |
| `RecursiveMutex.MutualExclusion` | src/kpr/Mutex.cpp:126-255 | at most one thread runs program code at positive depth |
| `RecursiveMutex.GetOwnerExact` | src/kpr/Mutex.cpp:116-124 | GetOwner names the calling thread exactly when it holds the mutex |
| `RecursiveMutex.TryLockExact` | src/kpr/Mutex.cpp:186-227 | tryLock is true exactly with the calling thread as the owner, one level deeper, and false exactly when another thread owns the mutex |
| `RecursiveMutex.WaitResumesAtDepth` | src/kpr/Condition.cpp:123-141 | a condition wait entered at depth n resumes at depth n, owning the mutex alone |
| `RecursiveMutex.UnblockedSteps` | src/kpr/Mutex.cpp:126-272 | a thread that is not waiting for a lock always has a step |
| `RecursiveMutex.HolderNeverStuck` | src/kpr/Mutex.cpp:126-272 | a blocked holder of m_internal waits only for a thread whose next step needs no lock and frees m_mutex |
| `RecursiveMutex.NoDeadlock` | src/kpr/Mutex.cpp:126-272 | in every reachable state with a blocked thread, some thread inside a call that waits for no signal has a step, or the owner is in program code |
| `ServiceThread.StepInv` | src/kpr/Monitor.cpp:48-119 | every step of wakeup, stop and waitForRunning through monitor, mutex and condition wait keeps the invariant |
| `ServiceThread.NoLostWakeup` | src/common/ServiceThread.cpp:34-68 | the service thread is never blocked and unsignalled while m_notified is true and the monitor is free: some owner still owes it a signal |
| `ServiceWakeup.WakeupMarks` | src/common/ServiceThread.cpp:40-49 | every wakeup call that returns has had m_notified true at a moment when it owned the monitor |
| `ServiceWakeup.NotifiedStays` | src/common/ServiceThread.cpp:40-68 | m_notified is cleared by nobody but the service thread, outside the wait set, in waitForRunning |
| `ServiceWakeup.WakeupWakes` | src/common/ServiceThread.cpp:34-68 | a service thread in the wait set when wakeup is entered has left it at some moment before wakeup is back |
| `ServiceWakeup.StopWakes` | src/common/ServiceThread.cpp:34-38 | stop sets m_stoped for good and then calls wakeup |
| `ServiceWakeup.AwaitExact` | src/common/ServiceThread.cpp:51-68 | a waitForRunning call never enters the wait set if and only if it finds m_notified true, and then it clears it |
| `ServiceThread.OwnerAssertionsHold` | src/kpr/Monitor.cpp:121-124 | the owner assertions of Notify and Wait never fail |
| `ServiceThread.FlagsGuarded` | src/common/ServiceThread.cpp:40-68 | m_notified and m_notifyCount change only in the hands of the monitor's owner |
| `ToMutex.StepInv` | src/kpr/Monitor.cpp:135-196 | every step of Lock and Unlock, with timeouts and spurious wakeups, keeps the invariant |
| `ToMutex.MutualExclusion` | src/kpr/Monitor.cpp:135-196 | one holder at a time, with m_iCounts equal to its depth |
| `ToMutex.LockResult` | src/kpr/Monitor.cpp:145-182 | Lock returns true exactly with the lock in hand at one level deeper, and false exactly when another thread holds it |
| `ToMutex.NoLostHandOff` | src/kpr/Monitor.cpp:183-196 | if the lock is free and a waiter is unsignalled, a releaser has not passed its notify check or a signalled waiter is pending |
| `Arithmetic.Int32KeepsBits` | src/kpr/TimerThread.cpp:95-158 | the modelled conversion to `int` keeps the low 32 bits and is exact just in range |
| `TimerThread.TimerIds.GetNextTimerID` | src/kpr/TimerThread.cpp:186-189 | the next value of the one counter that all timer threads share, modulo 2^32 |
| `TimerThread.TimerThread.RegisterTimer` | src/kpr/TimerThread.cpp:91-107 | stores the timer under the next id, counting up from minus its delay |
| `TimerThread.TimerThread.UnRegisterTimer` | src/kpr/TimerThread.cpp:109-121 | removes exactly the named timer and tells whether it was there |
| `TimerThread.TimerThread.ResetTimer` | src/kpr/TimerThread.cpp:123-143 | sets only the named timer's counter, to its period or to zero |
| `TimerThread.TimerThread.Visit` | src/kpr/TimerThread.cpp:156-177 | one entry is counted up, reported if due, and restarted or erased |
| `TimerThread.TimerThread.CheckTimeOut` | src/kpr/TimerThread.cpp:145-184 | the table becomes the checked table, and exactly the due timers are reported, once each, in id order |
| `TimerThread.ReportsUnique` | src/kpr/TimerThread.cpp:145-184 | the report of a check is determined by table and elapsed time |
| `TimerThread.EntryStep` | src/kpr/TimerThread.cpp:145-184 | a check reports a timer exactly when it is due; the next check finds a persistent timer renewed, a one-shot timer that was not due counted on, and no one-shot timer that was due, whatever happens to the others |
| `TimerThread.Counted` | src/kpr/TimerThread.cpp:91-184 | over any run of checks, for every delay, period and elapsed times, the stored counter is the time since the last report, less the initial delay, in 32 bits |
| `TimerThread.FiresWhenDue` | src/kpr/TimerThread.cpp:91-184 | over any run of tables and reports, a persistent timer is reported at the first check where the time since its last report is due, every time, if and only if the arguments keep every comparison where 32 bits read right; then the k-th report never comes before delay + k periods |
| `TimerThread.CountedOnce` | src/kpr/TimerThread.cpp:91-184 | over any run of checks a one-shot timer is in the table exactly until its first report, and its counter is the elapsed time less the initial delay, in 32 bits |
| `TimerThread.OnceReported` | src/kpr/TimerThread.cpp:145-184 | after its report a one-shot timer is in no later table and in no later report |
| `TimerThread.FiresOnce` | src/kpr/TimerThread.cpp:91-184 | over any run of checks a one-shot timer is reported at the first check where delay and period have passed, and at no other, if and only if every comparison up to there reads right in 32 bits |
| `TimerThread.ReadRightBelow` | src/kpr/TimerThread.cpp:156-158 | for delays up to 2^31 and periods below it that condition is that no counted time reaches 2^31 |
| `TimerThread.StartExact` | src/kpr/TimerThread.cpp:95 | the stored start value is minus the delay if and only if the delay is at most 2^31 |
| `TimerThread.TestExact` | src/kpr/TimerThread.cpp:158 | for every period and every sum a check can meet, the exact windows in which the 32-bit comparison answers as the numbers do |
| `TimerThread.DueTestExact` | src/kpr/TimerThread.cpp:156-158 | the test of any stored entry is right exactly in those windows |
| `TimerThread.MissedByWrapping` | src/kpr/TimerThread.cpp:156-158 | a due timer that the wrapped test misses |
| `TimerThread.EarlyByDelay` | src/kpr/TimerThread.cpp:95-158 | a timer with a delay above 2^31 that fires at once |
| `TimerThread.EarlyByPeriod` | src/kpr/TimerThread.cpp:158 | a timer with a period of 2^31 that fires at once |
| `TimerThread.ResetFiresNext` | src/kpr/TimerThread.cpp:130-158 | a reset persistent timer fires at the next check if and only if its counter does not wrap there |
| `TimerPool.StepInv` | src/kpr/TimerTaskManager.cpp:74-86 | timeouts, additions, takes, completions, registration and destruction keep the invariant in any interleaving |
| `TimerPool.WorksConserved` | src/kpr/ThreadPool.cpp:252-294 | until Destroy clears the queue, the works taken followed by those queued are the accepted ones, in order |
| `TimerPool.TaskAtMostOnce` | src/kpr/TimerTaskManager.h:34-48 | a timer task is at most once among queued and running works, and its flag is set whenever it is queued or running |
| `TimerPool.FlagExact` | src/kpr/TimerTaskManager.h:34-48 | until Destroy a task's flag is set exactly while the task is about to be queued, queued or running, once; so after its completion it can be queued again |
| `TimerPool.AdditionQueued` | src/kpr/ThreadPool.cpp:252-278 | an addition before Destroy is queued at the end, an addition after it is dropped |
| `TimerPool.TakeIsFirst` | src/kpr/ThreadPool.cpp:280-292 | before Destroy a worker that asks gets the first queued work, and nobody else shortens the queue |
| `TimerPool.TimeoutQueues` | src/kpr/TimerTaskManager.cpp:74-86 | a timeout that finds the flag clear sets it and, unless the pool is being destroyed by then, queues its task before it goes on |
| `TimerPool.BusyTimeoutSkips` | src/kpr/TimerTaskManager.cpp:74-86 | a timeout that finds the flag set adds nothing |
| `BatchAllocator.BatchAllocator.constructor` | libs/jsoncpp-src-0.5.0/src/lib_json/json_batchallocator.h:31-40 | a valid allocator with an empty dummy page, for every page size the source accepts |
| `BatchAllocator.BatchAllocator.Allocate` | libs/jsoncpp-src-0.5.0/src/lib_json/json_batchallocator.h:54-78 | returns a block that was not live, from the free list first, else the next of the pages, and makes a page only when nothing is free anywhere |
| `BatchAllocator.BatchAllocator.NextPage` | libs/jsoncpp-src-0.5.0/src/lib_json/json_batchallocator.h:62-74 | leaves a current page with room, adding one only when every page is full |
| `BatchAllocator.BatchAllocator.PopFree` | libs/jsoncpp-src-0.5.0/src/lib_json/json_batchallocator.h:56-61 | takes the first block of the free list |
| `BatchAllocator.BatchAllocator.Carve` | libs/jsoncpp-src-0.5.0/src/lib_json/json_batchallocator.h:75-77 | takes the next block of the current page, never one that is live |
| `BatchAllocator.BatchAllocator.Release` | libs/jsoncpp-src-0.5.0/src/lib_json/json_batchallocator.h:82-87 | puts a live block at the head of the free list threaded through the blocks |
| `BatchAllocator.LiveBlocksDisjoint` | libs/jsoncpp-src-0.5.0/src/lib_json/json_batchallocator.h:31-111 | live blocks share no object, for every page size, and lie inside their page when blocks divide it |
| `BatchAllocator.BatchAllocator.AllocateFirst` | libs/jsoncpp-src-0.5.0/src/lib_json/json_batchallocator.h:54-78 | n allocations from a new allocator without release hand out the first n blocks of the model |
| `BatchAllocator.ObjectsConserved` | libs/jsoncpp-src-0.5.0/src/lib_json/json_batchallocator.h:31-111 | live, free-listed and never-used objects are all objects of all pages |
| `BatchAllocator.FirstPage` | libs/jsoncpp-src-0.5.0/src/lib_json/json_batchallocator.h:54-109 | the first page takes allocation n at n times the block size until it is full, and without end when blocks do not divide it |
| `BatchAllocator.UnevenBlockInMemoryIff` | libs/jsoncpp-src-0.5.0/src/lib_json/json_batchallocator.h:54-111 | when blocks do not divide the page and its byte size does not wrap, block n lies in the page's memory if and only if n is below the page size |
| `BatchAllocator.EvenBlockInPage` | libs/jsoncpp-src-0.5.0/src/lib_json/json_batchallocator.h:54-111 | when blocks divide the page every block lies inside its page |
| `BatchAllocator.BlocksInMemoryIff` | libs/jsoncpp-src-0.5.0/src/lib_json/json_batchallocator.h:31-111 | every block of every number of allocations lies in the memory of its page if and only if blocks divide the page and the byte size asked of malloc, cut to 32 bits, still covers the page |
| `BatchAllocator.ArrayPagesOverrun` | libs/jsoncpp-src-0.5.0/src/lib_json/json_internalarray.inl:126-138 | the instance declared for array pages, blocks of 8 in pages of 255, hands out block 255 where the memory of the page ends, whatever the byte sizes |
| `BatchAllocator.WrappedPageOverruns` | libs/jsoncpp-src-0.5.0/src/lib_json/json_batchallocator.h:102-111 | a page that blocks divide whose byte size is cut to the header, so that the first block is outside it |
| `JsonValue.StrTrichotomy` | libs/jsoncpp-src-0.5.0/src/lib_json/json_value.cpp:220-234 | string comparison leaves exactly one of less, equal, greater |
| `JsonValue.Trichotomy` | libs/jsoncpp-src-0.5.0/src/lib_json/json_value.cpp:567-609 | on values without NaN exactly one of a < b, a = b, b < a holds at any nesting |
| `JsonValue.Transitive` | libs/jsoncpp-src-0.5.0/src/lib_json/json_value.cpp:567-609 | operator< is transitive at any nesting |
| `JsonValue.EqualsMeansEqual` | libs/jsoncpp-src-0.5.0/src/lib_json/json_value.cpp:629-671 | operator== holds exactly between equal values that contain no NaN |
| `JsonValue.SelfEqualIff` | libs/jsoncpp-src-0.5.0/src/lib_json/json_value.cpp:629-671 | a value equals itself if and only if it contains no NaN |
| `JsonValue.StrictTotalOrder` | libs/jsoncpp-src-0.5.0/src/lib_json/json_value.cpp:567-671 | operator< is a strict total order whose ties are exactly operator== |
| `JsonValue.ScalarOrder` | libs/jsoncpp-src-0.5.0/src/lib_json/json_value.cpp:567-582 | numbers are ordered by value, false before true, reals by value with the infinities at the ends |
| `JsonValue.NaNUnordered` | libs/jsoncpp-src-0.5.0/src/lib_json/json_value.cpp:581-582 | NaN is neither before nor after any real |
| `JsonValue.KindOrder` | libs/jsoncpp-src-0.5.0/src/lib_json/json_value.cpp:567-572 | values of different kinds are in the order of the kinds: null, integer, unsigned, real, string, Boolean, array, object |
| `JsonValue.StringOrder` | libs/jsoncpp-src-0.5.0/src/lib_json/json_value.cpp:583-587 | a string comes before its extensions, and otherwise the first different character decides |
| `JsonValue.StringValueOrder` | libs/jsoncpp-src-0.5.0/src/lib_json/json_value.cpp:583-587 | the null string comes first, other strings in string order |
| `JsonValue.FirstDifferenceDecides` | libs/jsoncpp-src-0.5.0/src/lib_json/json_value.cpp:588-596 | after any common beginning the first different entry decides, by its key and, with equal keys, by its value |
| `JsonValue.ContainerOrder` | libs/jsoncpp-src-0.5.0/src/lib_json/json_value.cpp:588-596 | the smaller container comes first; of two equally large ones the first different entry decides |
| `JsonValue.SmallerFirst` | libs/jsoncpp-src-0.5.0/src/lib_json/json_value.cpp:588-596 | the smaller container comes first, whatever it contains |
| `JsonText.ContainsControlCharacter` | libs/jsoncpp-src-0.5.0/src/lib_json/json_writer.cpp:17-30 | finds a control character exactly when there is one |
| `JsonText.ValueToQuotedString` | libs/jsoncpp-src-0.5.0/src/lib_json/json_writer.cpp:112-173 | the early return and the escaping loop both give the same quoting |
| `JsonText.EscapeLoop` | libs/jsoncpp-src-0.5.0/src/lib_json/json_writer.cpp:117-172 | the loop gives the quoting of any string |
| `JsonText.QuoteRoundTrip` | libs/jsoncpp-src-0.5.0/src/lib_json/json_writer.cpp:112-173 | decoding a quoted NUL-free string by section 7 of RFC 8259 gives it back |
| `JsonText.QuotedClosesOnce` | libs/jsoncpp-src-0.5.0/src/lib_json/json_writer.cpp:112-173 | after the opening quote the literal ends at its last character and nowhere before |
| `JsonText.UintToString` | libs/jsoncpp-src-0.5.0/src/lib_json/json_writer.cpp:31-41 | writes the decimal digits backwards and the terminator, within 11 bytes, touching nothing else |
| `JsonText.UIntText` | libs/jsoncpp-src-0.5.0/src/lib_json/json_writer.cpp:58-65 | the decimal text of an unsigned integer, inside the 32-byte buffer |
| `JsonText.IntText` | libs/jsoncpp-src-0.5.0/src/lib_json/json_writer.cpp:43-55 | the decimal text of a signed integer above the smallest, inside the buffer |
| `JsonText.IntegerRoundTrip` | libs/jsoncpp-src-0.5.0/src/lib_json/json_writer.cpp:31-65 | the decimal text is a JSON integer without leading zero that denotes the number |
| `JsonWriters.GetFinds` | libs/jsoncpp-src-0.5.0/src/lib_json/json_value.cpp:1066-1081 | looking a member up by its own key finds that member |
| `JsonWriters.GetAbsent` | libs/jsoncpp-src-0.5.0/src/lib_json/json_value.cpp:998-1013 | a key that is not there gives null |
| `JsonWriters.ScalarText` | libs/jsoncpp-src-0.5.0/src/lib_json/json_writer.cpp:211-230 | the text of every value that is not a container |
| `JsonWriters.FastWriter.Write` | libs/jsoncpp-src-0.5.0/src/lib_json/json_writer.cpp:198-205 | the document is the compact text and a line break |
| `JsonWriters.FastWriter.WriteValue` | libs/jsoncpp-src-0.5.0/src/lib_json/json_writer.cpp:208-264 | appends the compact text of the value |
| `JsonWriters.FastWriter.WriteArray` | libs/jsoncpp-src-0.5.0/src/lib_json/json_writer.cpp:231-243 | appends the elements a signed bound reaches, gaps as null |
| `JsonWriters.FastWriter.WriteObject` | libs/jsoncpp-src-0.5.0/src/lib_json/json_writer.cpp:244-262 | appends the members in key order |
| `JsonStyled.StyledWriter.Write` | libs/jsoncpp-src-0.5.0/src/lib_json/json_writer.cpp:277-288 | returns the styled text and a line break, with no indentation left over, or stops at the size assertion, exactly when some array's size does not fit a signed integer |
| `JsonStyled.StyledWriter.WriteValue` | libs/jsoncpp-src-0.5.0/src/lib_json/json_writer.cpp:291-349 | collects the text of a flat value or writes any value; indentation and mode are restored; the size assertion holds throughout if and only if every array's size fits |
| `JsonStyled.StyledWriter.WriteObjectValue` | libs/jsoncpp-src-0.5.0/src/lib_json/json_writer.cpp:317-346 | one member per line, a level deeper, and back |
| `JsonStyled.StyledWriter.WriteArrayValue` | libs/jsoncpp-src-0.5.0/src/lib_json/json_writer.cpp:352-402 | on one line or many as the layout decides; the collected texts are as many as the elements, as asserted, if and only if the size fits |
| `JsonStyled.StyledWriter.WriteLines` | libs/jsoncpp-src-0.5.0/src/lib_json/json_writer.cpp:361-388 | one element per line, the same whether taken from collected texts or written afresh |
| `JsonStyled.StyledWriter.WriteOneLine` | libs/jsoncpp-src-0.5.0/src/lib_json/json_writer.cpp:389-400 | the collected texts on one line |
| `JsonStyled.StyledWriter.IsMultilineArray` | libs/jsoncpp-src-0.5.0/src/lib_json/json_writer.cpp:405-433 | decides the layout by the signed size and leaves the document alone; without a nested element the text of every element looked at is collected, otherwise none |
| `JsonStyled.StyledWriter.MeasureLine` | libs/jsoncpp-src-0.5.0/src/lib_json/json_writer.cpp:418-431 | collects one text per element and adds up their lengths in 32 bits |
| `JsonStyled.HugeIsOneLine` | libs/jsoncpp-src-0.5.0/src/lib_json/json_writer.cpp:405-433 | an array of 2^31 elements is judged to fit on one line and no text of it is collected |
| `JsonStyled.OneLineFits` | libs/jsoncpp-src-0.5.0/src/lib_json/json_writer.cpp:405-433 | an array kept on one line is narrower than the margin, and a flat one is broken only for its length or its element count |
| `JsonLayout.StyledLayout` | libs/jsoncpp-src-0.5.0/src/lib_json/json_writer.cpp:277-481 | read by a scanner that knows only string literals and open brackets: every bracket and comma of a styled document ends its line, but for empty containers and arrays on one line; a line begins with three blanks for each open bracket, one fewer before its closing bracket, and nowhere else; no array on one line reaches the margin of 74, within the range of an `int` |
| `JsonAgreement.FastReduces` | libs/jsoncpp-src-0.5.0/src/lib_json/json_writer.cpp:208-264 | the compact text with blanks after colons reduces to the one without |
| `JsonAgreement.YamlWidens` | libs/jsoncpp-src-0.5.0/src/lib_json/json_writer.cpp:244-262 | the compact text written for YAML is the plain one with one blank after every colon outside string literals, and no other change |
| `JsonAgreement.StyledReduces` | libs/jsoncpp-src-0.5.0/src/lib_json/json_writer.cpp:291-481 | after any document, writing a value in style adds its compact text and insignificant whitespace only |
| `JsonAgreement.SameDocument` | libs/jsoncpp-src-0.5.0/src/lib_json/json_writer.cpp:198-481 | StyledWriter completes its document and the two are equal after deleting whitespace outside string literals if and only if every array size fits a signed integer; what is left is the compact text |
| `JsonReader.FastLexes` | libs/jsoncpp-src-0.5.0/src/lib_json/json_writer.cpp:208-264 | after any document that ends a lexeme, the compact text reads as the lexemes of the value |
| `JsonReader.StyledLexes` | libs/jsoncpp-src-0.5.0/src/lib_json/json_writer.cpp:291-481 | after any document that ends a lexeme, the styled text reads as the same lexemes: its whitespace never splits one |
| `JsonReader.SameLexemes` | libs/jsoncpp-src-0.5.0/src/lib_json/json_writer.cpp:198-481 | both documents are the same sequence of lexemes |
| `JsonReader.ValueParses` | libs/jsoncpp-src-0.5.0/src/lib_json/json_writer.cpp:208-264 | a parser by RFC 8259, with its number grammar, consumes exactly these lexemes and returns the meaning of the value |
| `JsonReader.MeaningKeptIff` | libs/jsoncpp-src-0.5.0/src/lib_json/json_writer.cpp:231-243 | the elements a signed loop bound reaches are all of them if and only if every array size fits |
| `JsonReader.GapIsNull` | libs/jsoncpp-src-0.5.0/src/lib_json/json_value.cpp:998-1013 | a gap of an array is written as null and means null |
| `JsonReader.FastRoundTrip` | libs/jsoncpp-src-0.5.0/src/lib_json/json_writer.cpp:198-264 | the fast document, read with whitespace allowed around lexemes only, gives back the value if and only if every array size fits a signed integer |
| `JsonReader.StyledRoundTrip` | libs/jsoncpp-src-0.5.0/src/lib_json/json_writer.cpp:277-481 | the styled document is completed and, read with whitespace allowed around lexemes only, gives back the value if and only if every array size fits a signed integer |
| `JsonReader.HugeArrayLost` | libs/jsoncpp-src-0.5.0/src/lib_json/json_writer.cpp:234-240 | an array whose only element is at index 2^31 - 1 is written by FastWriter as an empty array |
| `JsonReader.HugeArrayStops` | libs/jsoncpp-src-0.5.0/src/lib_json/json_writer.cpp:355-391 | on the same array StyledWriter collects no text and stops at the assertion that compares 0 with 2^31 |

## Left out

- C++ memory orders weaker than sequential consistency, real clocks, thread creation, sleeping and yielding.
- Liveness: that a retry loop, a blocked thread or a queued work is eventually served. In particular a pool worker between an empty `GetWork` and its next `SetIdle(true)` is not seen as idle (src/kpr/ThreadPool.cpp:68-93).
- Termination of the destructor under discard_log_msg: its own termination message may be dropped (libs/spdlog/include/spdlog/details/async_log_helper.h:197-210). Delivery is claimed for block_retry only.
- Exceptions of sinks and formatter, and the flush interval of the worker.
- `Monitor::NotifyAll` and nested monitor locking: the service thread uses neither.
- The boolean result of `Condition::wait` on a recursive mutex: it tests errno instead of the return code (src/kpr/Condition.cpp:294-301); ownership and depth are claimed.
- Failing or interrupted system calls, except that an interrupted wait of the service thread may throw; wrap-around of `m_count`, `m_notifyCount` and the condition counters.
- BoundedQueue.MpmcBoundedQueue.ClaimEnqueue: the weak compare-and-swap fails spuriously at most `spurious` times, a bound the caller picks freely, because the loop has no bound of its own.
- BoundedQueue.MpmcBoundedQueue.ClaimDequeue: the same bound on spurious failures.
- The allocator's array-page instance is compiled only with JSON_VALUE_USE_INTERNAL_MAP; the overrun is proved of the allocator, not of the array code around it.
- The sleeping loop of the timer thread and the calls to its handlers; worker counts, idle times and thread limits of the pool.
- The size difference of two maps cast to `int` in `operator<` (libs/jsoncpp-src-0.5.0/src/lib_json/json_value.cpp:594): sizes are compared as they are.
- `Value::operator<=`, which as written equals `>=`; mutation of values (`operator[]`, `resize`, `append`, `swap`).
- Array indices from 2^31 on, which the library stores as negative keys. `size()` of an array whose last index is 2^31 - 1 is taken to wrap to 2^31.
- What StyledWriter does after its size assertion has failed in a build without assertions: it reads past the collected texts. Signed sums and products of sizes are taken to wrap.
- A failing `malloc` in the allocator.
- `valueToString(double)`: a real prints as an opaque nonempty word without quotes, whitespace, brackets, colons and commas (a locale with a decimal comma is not modelled), and for the round trips as a number of RFC 8259, whose text is read back verbatim. The library can print one that ends in a bare point, which is no such number.
- The smallest 32-bit integer in `valueToString(Int)`: negating it overflows. Null string pointers, on which the writers are undefined.
- Comments in documents, and the JSON reader of the library; `JsonReader` is a reference definition, without surrogate pairs, which the writers never produce.
- Network, producer, consumer and message façades, compression, configuration and tools.
