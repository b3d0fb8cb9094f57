/** Startup and shutdown of the contention module: spawning the holder and the
    waiter kthreads, pinning them to CPUs, rolling back on a spawn failure, and
    stopping everything on unload. Calls into the kernel (kthread_run,
    set_cpus_allowed_ptr, kthread_stop) are recorded as events on a trace. */
module Lifecycle {
  import opened Placement

  /** Identity of a running kthread. */
  type Handle = nat

  const ENOMEM: int := 12

  /** Largest errno an error pointer can carry. */
  const MAX_ERRNO: int := 4095

  /** A negative errno, as carried by an error pointer. */
  type ErrorCode = e: int | -MAX_ERRNO <= e < 0 witness -12

  /** What one kthread_run call gave back. */
  datatype SpawnResult = Spawned(task: Handle) | SpawnFailed(err: ErrorCode)

  /** Content of a task pointer variable: NULL, a live kthread, or an error
      pointer left behind by a failed spawn. */
  datatype TaskPtr = Null | Task(handle: Handle) | ErrPtr(err: ErrorCode)

  datatype Worker = Holder | Waiter(index: nat)

  /** A kernel call made by the module. */
  datatype Event =
    | Spawn(who: Worker)
    | Pin(who: Worker, cpu: int)
    | Stop(who: Worker, target: TaskPtr)

  /** The pointer kthread_run returns for a spawn outcome. */
  function ToPtr(r: SpawnResult): (p: TaskPtr)
    ensures p != Null
    ensures r.Spawned? <==> p.Task?
  {
    match r
    case Spawned(h) => Task(h)
    case SpawnFailed(e) => ErrPtr(e)
  }

  /** The pin issued for `who` on `cpu`: one event when the CPU is online,
      none otherwise. */
  function PinIfOnline(who: Worker, cpu: int, online: set<int>): seq<Event>
  {
    if cpu in online then [Pin(who, cpu)] else []
  }

  /** Calls made to start the holder: the spawn, then its pin to CPU 0. */
  function HolderStart(online: set<int>): seq<Event>
  {
    [Spawn(Holder)] + PinIfOnline(Holder, HOLDER_CPU, online)
  }

  /** Calls made to start waiters 0 .. k-1, each spawn followed by its pin. */
  function WaiterStarts(availableCpus: int, online: set<int>, k: nat): seq<Event>
    requires availableCpus >= 1
  {
    if k == 0 then []
    else
      WaiterStarts(availableCpus, online, k - 1) + [Spawn(Waiter(k - 1))] +
      PinIfOnline(Waiter(k - 1), TargetCpu(k - 1, availableCpus), online)
  }

  /** The pointers stored for waiters 0 .. k-1 by the spawn loop. */
  function Launched(spawns: seq<SpawnResult>, k: nat): seq<TaskPtr>
    requires k < |spawns|
  {
    seq(k, i requires 0 <= i < k => ToPtr(spawns[i + 1]))
  }

  /** Index of the first waiter whose spawn fails, scanning waiters from `i`
      on, or `n` when waiters i .. n-1 all spawn. Outcome `spawns[j + 1]`
      belongs to waiter j. */
  function FirstFailureFrom(spawns: seq<SpawnResult>, n: nat, i: nat): (k: nat)
    requires i <= n < |spawns|
    ensures i <= k <= n
    ensures forall j :: i < j <= k ==> spawns[j].Spawned?
    ensures k < n ==> spawns[k + 1].SpawnFailed?
    decreases n - i
  {
    if i == n then n
    else if spawns[i + 1].SpawnFailed? then i
    else FirstFailureFrom(spawns, n, i + 1)
  }

  /** The stop issued for the pointer `p` of `who`: kthread_stop is called only
      on a non-NULL pointer. */
  function StopIfSet(who: Worker, p: TaskPtr): seq<Event>
  {
    if p != Null then [Stop(who, p)] else []
  }

  /** Stops of waiters 0 .. n-1 in ascending order, as on unload. */
  function StopsUp(slots: seq<TaskPtr>, n: nat): seq<Event>
    requires n <= |slots|
  {
    if n == 0 then [] else StopsUp(slots, n - 1) + StopIfSet(Waiter(n - 1), slots[n - 1])
  }

  /** Stops of waiters hi-1 down to lo, as in the startup rollback. */
  function StopsDown(slots: seq<TaskPtr>, lo: nat, hi: nat): seq<Event>
    requires hi <= |slots|
    decreases hi - lo
  {
    if lo >= hi then [] else StopsDown(slots, lo + 1, hi) + StopIfSet(Waiter(lo), slots[lo])
  }

  /** Every call made on unload: the waiters' stops, then the holder's. */
  function ExitStops(slots: seq<TaskPtr>, n: nat, holder: TaskPtr): seq<Event>
    requires n <= |slots|
  {
    StopsUp(slots, n) + StopIfSet(Holder, holder)
  }

  /** The module's global state: the holder's task pointer, the fixed table of
      waiter task pointers, the number of waiters in use, and the trace of
      kernel calls made so far. */
  class SoftlockupTest {
    var holder: TaskPtr
    const waiters: array<TaskPtr>
    var numWaiters: int
    ghost var trace: seq<Event>

    /** The waiter count always indexes inside the table. */
    ghost predicate Valid()
      reads this
    {
      waiters.Length == MAX_WAITER_THREADS && 1 <= numWaiters < MAX_WAITER_THREADS
    }

    /** The state at module load: all pointers NULL, three waiters by default. */
    constructor ()
      ensures Valid() && fresh(waiters)
      ensures holder == Null && numWaiters == 3 && trace == []
      ensures forall i :: 0 <= i < waiters.Length ==> waiters[i] == Null
    {
      holder := Null;
      waiters := new TaskPtr[MAX_WAITER_THREADS](_ => Null);
      numWaiters := 3;
      trace := [];
    }

    /** Module init with `availableCpus` online CPUs, the CPUs in `online`
        online, and kthread_run giving `spawns[0]` for the holder and
        `spawns[i + 1]` for waiter i. */
    method Init(availableCpus: int, online: set<int>, spawns: seq<SpawnResult>) returns (ret: int)
      requires Valid()
      requires availableCpus >= 1
      requires |spawns| > NumWaiters(availableCpus)
      modifies this, waiters
      ensures Valid()
      ensures numWaiters == NumWaiters(availableCpus)
      // holder spawn fails: its error is returned and nothing else is tried
      ensures spawns[0].SpawnFailed? ==>
        && ret == spawns[0].err
        && holder == ErrPtr(spawns[0].err)
        && (forall j :: 0 <= j < waiters.Length ==> waiters[j] == old(waiters[j]))
        && trace == old(trace) + [Spawn(Holder)]
      // every spawn succeeds: 0 is returned and all threads are recorded
      ensures spawns[0].Spawned? && FirstFailureFrom(spawns, numWaiters, 0) == numWaiters ==>
        && ret == 0
        && holder == Task(spawns[0].task)
        && (forall j :: 0 <= j < numWaiters ==> waiters[j] == Task(spawns[j + 1].task))
        && (forall j :: numWaiters <= j < waiters.Length ==> waiters[j] == old(waiters[j]))
        && trace == old(trace) + HolderStart(online) + WaiterStarts(availableCpus, online, numWaiters)
      // waiter k fails: earlier waiters are stopped in reverse, then the holder
      ensures spawns[0].Spawned? && FirstFailureFrom(spawns, numWaiters, 0) < numWaiters ==>
        var k := FirstFailureFrom(spawns, numWaiters, 0);
        && ret == -ENOMEM
        && holder == Null
        && (forall i :: 0 <= i < k ==> waiters[i] == Null)
        && waiters[k] == ErrPtr(spawns[k + 1].err)
        && (forall j :: k < j < waiters.Length ==> waiters[j] == old(waiters[j]))
        && trace == old(trace) + HolderStart(online) + WaiterStarts(availableCpus, online, k) +
                    [Spawn(Waiter(k))] + StopsDown(Launched(spawns, k), 0, k) +
                    [Stop(Holder, Task(spawns[0].task))]
    {
      numWaiters := NumWaiters(availableCpus);

      trace := trace + [Spawn(Holder)];
      holder := ToPtr(spawns[0]);
      if spawns[0].SpawnFailed? {
        return spawns[0].err;
      }

      if HOLDER_CPU in online {
        trace := trace + [Pin(Holder, HOLDER_CPU)];
      }
      ghost var started := trace;
      assert started == old(trace) + HolderStart(online);

      var i := SpawnWaiters(availableCpus, online, spawns);
      if i == numWaiters {
        return 0;
      }
      ghost var spawned := trace;
      Rollback(i, Launched(spawns, i));
      assert trace == spawned + StopsDown(Launched(spawns, i), 0, i) + [Stop(Holder, Task(spawns[0].task))];
      return -ENOMEM;
    }

    /** The waiter spawn loop of init: waiters are spawned in ascending order,
        each successful one pinned to its target CPU when that CPU is online,
        until one spawn fails. Returns the index of the failed waiter, or
        `numWaiters` when all were spawned; the failed waiter's slot keeps its
        error pointer. */
    method SpawnWaiters(availableCpus: int, online: set<int>, spawns: seq<SpawnResult>) returns (failedAt: int)
      requires Valid()
      requires availableCpus >= 1
      requires numWaiters == NumWaiters(availableCpus) && |spawns| > numWaiters
      modifies this`trace, waiters
      ensures failedAt == FirstFailureFrom(spawns, numWaiters, 0)
      ensures var written := if failedAt < numWaiters then failedAt + 1 else numWaiters;
        && (forall j :: 0 <= j < written ==> waiters[j] == ToPtr(spawns[j + 1]))
        && (forall j :: written <= j < waiters.Length ==> waiters[j] == old(waiters[j]))
      ensures trace == old(trace) + WaiterStarts(availableCpus, online, failedAt) +
                       (if failedAt < numWaiters then [Spawn(Waiter(failedAt))] else [])
    {
      var i := 0;
      while i < numWaiters
        invariant 0 <= i <= numWaiters
        invariant FirstFailureFrom(spawns, numWaiters, 0) >= i
        invariant forall j :: 0 <= j < i ==> waiters[j] == ToPtr(spawns[j + 1])
        invariant forall j :: i <= j < waiters.Length ==> waiters[j] == old(waiters[j])
        invariant trace == old(trace) + WaiterStarts(availableCpus, online, i)
        decreases numWaiters - i
      {
        var targetCpu := TargetCpu(i, availableCpus);
        trace := trace + [Spawn(Waiter(i))];
        waiters[i] := ToPtr(spawns[i + 1]);
        if spawns[i + 1].SpawnFailed? {
          return i;
        }
        if targetCpu in online {
          trace := trace + [Pin(Waiter(i), targetCpu)];
        }
        i := i + 1;
      }
      return i;
    }

    /** The cleanup path of init after waiter `failedAt` failed to spawn:
        walking down from `failedAt - 1`, every non-NULL waiter is stopped and
        cleared, then the holder. Slot `failedAt` and above are not touched. */
    method Rollback(failedAt: int, ghost launched: seq<TaskPtr>)
      requires Valid()
      requires 0 <= failedAt < numWaiters
      requires |launched| == failedAt
      requires forall j :: 0 <= j < failedAt ==> waiters[j] == launched[j]
      modifies this`holder, this`trace, waiters
      ensures holder == Null
      ensures forall i :: 0 <= i < failedAt ==> waiters[i] == Null
      ensures forall j :: failedAt <= j < waiters.Length ==> waiters[j] == old(waiters[j])
      ensures trace == old(trace) + StopsDown(launched, 0, failedAt) + StopIfSet(Holder, old(holder))
    {
      var i := failedAt - 1;
      while i >= 0
        invariant -1 <= i < failedAt
        invariant forall j :: 0 <= j <= i ==> waiters[j] == launched[j]
        invariant forall j :: i < j < failedAt ==> waiters[j] == Null
        invariant forall j :: failedAt <= j < waiters.Length ==> waiters[j] == old(waiters[j])
        invariant trace == old(trace) + StopsDown(launched, i + 1, failedAt)
        invariant holder == old(holder)
        decreases i
      {
        if waiters[i] != Null {
          trace := trace + [Stop(Waiter(i), waiters[i])];
          waiters[i] := Null;
        }
        i := i - 1;
      }

      if holder != Null {
        trace := trace + [Stop(Holder, holder)];
        holder := Null;
      }
    }

    /** Module exit: stop every non-NULL waiter in ascending order, then the
        holder, clearing each pointer. */
    method Exit()
      requires Valid()
      modifies this`holder, this`trace, waiters
      ensures Valid()
      ensures numWaiters == old(numWaiters)
      ensures holder == Null
      ensures forall i :: 0 <= i < numWaiters ==> waiters[i] == Null
      ensures forall j :: numWaiters <= j < waiters.Length ==> waiters[j] == old(waiters[j])
      ensures trace == old(trace) + ExitStops(old(waiters[..]), numWaiters, old(holder))
    {
      ghost var slots := waiters[..];
      var i := 0;
      while i < numWaiters
        invariant 0 <= i <= numWaiters
        invariant forall j :: 0 <= j < i ==> waiters[j] == Null
        invariant forall j :: i <= j < waiters.Length ==> waiters[j] == slots[j]
        invariant trace == old(trace) + StopsUp(slots, i)
        invariant holder == old(holder)
        decreases numWaiters - i
      {
        if waiters[i] != Null {
          trace := trace + [Stop(Waiter(i), waiters[i])];
          waiters[i] := Null;
        }
        i := i + 1;
      }

      if holder != Null {
        trace := trace + [Stop(Holder, holder)];
        holder := Null;
      }
    }
  }
}
