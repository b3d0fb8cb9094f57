# softlockup_test: a verified model of the multi-process contention module

The module `multi-process/multi-process.c` is a Linux kernel module that
creates spinlock contention on purpose. At load it starts one *holder*
kthread and one to three *waiter* kthreads. It pins each of them to its
CPU when that CPU is online. All of them then take one shared spinlock in a
loop. At unload it stops the waiters and then the holder. If a waiter fails to spawn during load, it rolls
back the threads already started.

The lock contention itself is concurrency and is not modelled. What is
modelled is the sequential logic around it:

- `placement.dfy`, module `Placement`: the pure placement policy. It gives
  the waiter count for a number of online CPUs, the holder's CPU 0, and the
  target CPU `(i + 1) % available_cpus` of waiter `i`.
- `worker.dfy`, module `Worker`: the loop of `task_holder_func` and
  `task_waiter_func`. It is a method that records the operations it performs.
  The kthread stop flag is a count of polls that read false before one reads
  true, and the lock has an abstract "held" flag. Holder and waiter share the
  same lock structure (poll, lock, sleep, unlock, sleep). They differ only in
  log lines and sleep lengths, so one method models both.
- `lifecycle.dfy`, module `Lifecycle`: the module's globals as the class
  `SoftlockupTest`:
  - `holder` is `task_holder_thread`;
  - `waiters` is `task_waiter_threads`, an `array` of length
    `MAX_WAITER_THREADS = 4`;
  - `numWaiters` is `num_waiters`;
  - a ghost `trace` records every `kthread_run`, `set_cpus_allowed_ptr` and
    `kthread_stop` call.

  A task pointer is `Null`, a live `Task(handle)`, or an `ErrPtr(errno)` as
  left by a failed `kthread_run`. `Init` models `softlockup_test_init`. Its
  spawn loop and its `cleanup:` path are the helper methods `SpawnWaiters`
  and `Rollback`. `Exit` models `softlockup_test_exit`. The inputs are:
  - the spawn outcomes, as a sequence: `spawns[0]` for the holder,
    `spawns[i + 1]` for waiter `i`;
  - `num_online_cpus()`, as an integer;
  - `cpu_online`, as a set of online CPUs.
- `lifecycle_properties.dfy`, module `LifecycleProperties`: lemmas about the
  traces. They cover the spawn order, which pins are issued, the order and
  completeness of the stops on rollback and on unload, and that a second
  unload issues no stops.

Behaviours of the code worth noting (the model follows the code):

- If a waiter fails to spawn, init returns `-ENOMEM`. It does not return the
  error code of the failed spawn. Only a holder spawn failure returns the
  spawn's own code (multi-process/multi-process.c:106, 159).
- A pin is skipped silently when the target CPU is offline. No warning is
  logged, and the result of `set_cpus_allowed_ptr` is not checked
  (multi-process/multi-process.c:109-113, 132-136).
- The waiter count is at most 3, not 4. The table has 4 slots, so there is
  always one spare.
- After a failed holder spawn, `task_holder_thread` keeps the error pointer:
  that error path returns before `cleanup:` (multi-process/multi-process.c:106).
  After waiter k fails to spawn, rollback leaves slot k's error pointer in
  place (multi-process/multi-process.c:144).

## Model

| member | source | states |
|---|---|---|
| Placement.NumWaiters | multi-process/multi-process.c:83-95 | 3 waiters with at least 4 CPUs, 2 with exactly 3, 1 otherwise; always 1..3, so below MAX_WAITER_THREADS and in bounds of the handle table; with 2 or more CPUs, fewer waiters than CPUs |
| Placement.TargetCpu | multi-process/multi-process.c:119 | the target CPU of waiter i lies in [0, available_cpus) and is i + 1 when that is below the CPU count |
| Placement.TargetsDistinctFromHolderAndEachOther | multi-process/multi-process.c:109-119 | with at least 2 CPUs, no started waiter targets the holder's CPU 0 and no two waiters target the same CPU |
| Placement.WaiterTargets | multi-process/multi-process.c:116-119 | the placement table has one entry per waiter, each a valid CPU; waiter i gets CPU i + 1 with 2 or more CPUs, and the single waiter shares CPU 0 with 1 CPU |
| Placement.FourCpuPlacement | multi-process/multi-process.c:83-86 | with 4 CPUs the three waiters go to CPUs 1, 2 and 3 |
| Worker.Run | multi-process/multi-process.c:16-73 | a worker run is disciplined: the lock is never taken while held; every lock is released before the next stop poll; the stop flag and the pause are only reached with the lock free; the run ends at the first poll that sees the stop request, with the lock free; there is one lock per false poll |
| Lifecycle.ToPtr | multi-process/multi-process.c:102-103 | the pointer kthread_run gives back is never NULL: a task exactly when the spawn succeeded, otherwise an error pointer |
| Lifecycle.FirstFailureFrom | multi-process/multi-process.c:116-130 | the index where the spawn loop stops: all earlier waiters spawned, and if it is below the waiter count, that waiter's spawn failed |
| Lifecycle.SoftlockupTest.constructor | multi-process/multi-process.c:10-13 | at load the holder pointer and all four slots are NULL and num_waiters is 3 |
| Lifecycle.SoftlockupTest.Init | multi-process/multi-process.c:75-160 | sets num_waiters from the CPU count. If the holder spawn fails: returns its error, keeps the error pointer, makes no further call. If every spawn succeeds: returns 0, the holder and each slot below num_waiters hold live handles, and the trace is holder spawn and pin, then each waiter's spawn and pin in ascending order. If waiter k fails: returns -ENOMEM, clears the holder and slots below k, slot k keeps the error pointer, and the trace ends with stops of waiters k-1 down to 0 and then the holder |
| Lifecycle.SoftlockupTest.SpawnWaiters | multi-process/multi-process.c:116-137 | spawns waiters in ascending order; slot i then holds the pointer returned by waiter i's spawn, for every slot written. Each successful waiter is pinned when its target CPU is online. Stops at the first failed spawn and returns its index, or num_waiters if none failed. Slots above the failed one are untouched |
| Lifecycle.SoftlockupTest.Rollback | multi-process/multi-process.c:142-159 | stops and clears every non-NULL slot from failedAt-1 down to 0, then stops and clears the holder; slot failedAt and above are untouched |
| Lifecycle.SoftlockupTest.Exit | multi-process/multi-process.c:162-188 | stops every non-NULL waiter below num_waiters in ascending order, then the holder if non-NULL; all of them are NULL afterwards, and the other slots and num_waiters are unchanged |
| LifecycleProperties.StartupSpawnOrder | multi-process/multi-process.c:101-137 | startup spawns the holder first, then waiters 0..k-1 in ascending order, and nothing else |
| LifecycleProperties.WaiterSpawnOrder | multi-process/multi-process.c:116-123 | the spawn loop spawns exactly waiters 0..k-1 in ascending order |
| LifecycleProperties.StartupPins | multi-process/multi-process.c:109-136 | every pin goes to an online CPU, the holder's to CPU 0 and waiter i's to its target; a started waiter is pinned if and only if its target is online, and so is the holder |
| LifecycleProperties.PinsFollowPlacementTable | multi-process/multi-process.c:116-136 | the pin init issues to waiter i goes to entry i of the placement table WaiterTargets |
| LifecycleProperties.StopsUpAllSet | multi-process/multi-process.c:168-177 | when every slot below n holds a thread, unload stops exactly waiter 0, 1, .., n-1 in that order |
| LifecycleProperties.StopsUpOrder | multi-process/multi-process.c:168-177 | every waiter stop on unload targets a non-NULL slot below n, in strictly ascending order, and every non-NULL slot below n is stopped |
| LifecycleProperties.ExitOrder | multi-process/multi-process.c:168-185 | on unload every stop targets a non-NULL pointer, waiter stops come in ascending order, and the holder stop comes last; the holder is stopped if and only if its pointer is non-NULL |
| LifecycleProperties.ExitAfterSuccessfulInit | multi-process/multi-process.c:168-185 | after a fully successful start, unload stops waiters 0..n-1 in order and then the holder, each exactly once |
| LifecycleProperties.SecondExitStopsNothing | multi-process/multi-process.c:171-180 | once unload has cleared the slots and the holder, another unload issues no stop |
| LifecycleProperties.RollbackStopsDescending | multi-process/multi-process.c:144-151 | when all slots in [lo, hi) hold threads, rollback stops exactly waiter hi-1, hi-2, .., lo in that order |
| LifecycleProperties.RollbackAfterWaiterFailure | multi-process/multi-process.c:142-159 | when waiter k is the first to fail, the stops are exactly waiters k-1 down to 0 (their spawned handles), then the holder |

## Left out

- Spinlock semantics are left out. This covers mutual exclusion between
  threads, contention, the queued-lock slow path, fairness and liveness. They
  live in the kernel's lock, not in this code. The lock appears only as the
  worker's abstract held flag.
- Kthread scheduling is left out. So is the fact that `kthread_stop` blocks
  until the thread exits. A stop is one atomic event on the trace.
- Worker runs that are never stopped are not modelled: `Worker.Run` takes the
  number of false polls before the stop flag is seen.
- The sleep lengths of `msleep` (200, 10, 50 and 20 ms) are left out. Sleeping
  with the lock held is the `Hold` operation, and sleeping after release is
  `Pause`.
- `pr_info`, `pr_warn` and `pr_err` logging is left out, and so are
  `smp_processor_id` and the `snprintf` thread names.
- `num_online_cpus`, `cpu_online`, `cpumask_of` and the affinity change are
  inputs or recorded events. The model assumes at least one CPU is online, as
  the kernel guarantees. With zero CPUs, `(i + 1) % available_cpus` would
  divide by zero.
- `IS_ERR` and `PTR_ERR` pointer encoding is left out. A spawn result is a sum
  type. Error codes are negative errnos no smaller than -4095, as `IS_ERR`
  accepts.
- `spin_lock_init` and the `module_init`, `module_exit` and `MODULE_*`
  macros are left out.
- The kernel calls `softlockup_test_exit` only after a successful init. The
  model does not enforce this, and `Exit` stops any non-NULL pointer, as the
  code does.
