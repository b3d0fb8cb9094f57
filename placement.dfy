/** Placement policy of the contention module: how many waiter threads to
    start for a given number of online CPUs, and which CPU each thread is
    pinned to. Everything here is a pure function of the online CPU count. */
module Placement {

  /** Capacity of the waiter handle table. */
  const MAX_WAITER_THREADS: nat := 4

  /** The holder thread always targets CPU 0. */
  const HOLDER_CPU: int := 0

  /** Number of waiter threads for `availableCpus` online CPUs: three when there
      are at least four CPUs, two with exactly three, one otherwise (the branch
      that warns that the slow path is unlikely to be reached). The count always
      fits the handle table, and with two or more CPUs it leaves every waiter a
      CPU of its own besides the holder's. */
  function NumWaiters(availableCpus: int): (n: int)
    ensures 1 <= n < MAX_WAITER_THREADS
    ensures availableCpus >= 4 ==> n == 3
    ensures availableCpus == 3 ==> n == 2
    ensures availableCpus <= 2 ==> n == 1
    ensures availableCpus >= 2 ==> n <= availableCpus - 1
  {
    if availableCpus >= 4 then 3
    else if availableCpus >= 3 then 2
    else 1
  }

  /** CPU targeted by waiter `i`: the next CPU after the holder's, round robin
      over the online count. C's `%` agrees with Dafny's for these non-negative
      operands. */
  function TargetCpu(i: nat, availableCpus: int): (cpu: int)
    requires availableCpus >= 1
    ensures 0 <= cpu < availableCpus
    ensures i + 1 < availableCpus ==> cpu == i + 1
  {
    (i + 1) % availableCpus
  }

  /** With at least two CPUs, every waiter that is started targets a CPU other
      than the holder's, and no two waiters target the same CPU. */
  lemma TargetsDistinctFromHolderAndEachOther(availableCpus: int, i: nat, j: nat)
    requires availableCpus >= 2
    requires i < NumWaiters(availableCpus) && j < NumWaiters(availableCpus)
    ensures TargetCpu(i, availableCpus) != HOLDER_CPU
    ensures i != j ==> TargetCpu(i, availableCpus) != TargetCpu(j, availableCpus)
  {
  }

  /** The placement table: target CPU of every waiter, in waiter order. With
      two or more CPUs waiter i lands on CPU i + 1; with one CPU the single
      waiter shares CPU 0 with the holder. */
  function WaiterTargets(availableCpus: int): (targets: seq<int>)
    requires availableCpus >= 1
    ensures |targets| == NumWaiters(availableCpus)
    ensures forall i :: 0 <= i < |targets| ==> 0 <= targets[i] < availableCpus
    ensures availableCpus >= 2 ==>
      forall i :: 0 <= i < |targets| ==> targets[i] == i + 1
    ensures availableCpus == 1 ==> targets == [HOLDER_CPU]
  {
    seq(NumWaiters(availableCpus), i requires 0 <= i => TargetCpu(i, availableCpus))
  }

  /** The placement table for four CPUs: three waiters on CPUs 1, 2 and 3. */
  lemma FourCpuPlacement()
    ensures WaiterTargets(4) == [1, 2, 3]
  {
  }
}
