/** What the startup and shutdown traces of the contention module promise:
    spawn order, pins only on online CPUs, the order and completeness of the
    stops on rollback and on unload, and that a second unload stops nothing. */
module LifecycleProperties {
  import opened Placement
  import opened Lifecycle

  /** The workers spawned in `t`, in spawn order. */
  function SpawnedWorkers(t: seq<Event>): seq<Worker>
  {
    if t == [] then []
    else SpawnedWorkers(t[..|t| - 1]) + (if t[|t| - 1].Spawn? then [t[|t| - 1].who] else [])
  }

  /** Waiters 0 .. k-1 in ascending order. */
  function WaiterRange(k: nat): seq<Worker>
  {
    seq(k, i requires 0 <= i < k => Waiter(i))
  }

  lemma {:induction false} SpawnedWorkersAppend(a: seq<Event>, b: seq<Event>)
    ensures SpawnedWorkers(a + b) == SpawnedWorkers(a) + SpawnedWorkers(b)
    decreases |b|
  {
    if b == [] {
      assert a + b == a;
    } else {
      var b' := b[..|b| - 1];
      assert (a + b)[..|a + b| - 1] == a + b';
      SpawnedWorkersAppend(a, b');
    }
  }

  /** Startup spawns the holder first, then waiters 0 .. k-1 in ascending
      order, and nothing else. */
  lemma {:induction false} StartupSpawnOrder(availableCpus: int, online: set<int>, k: nat)
    requires availableCpus >= 1
    ensures SpawnedWorkers(HolderStart(online) + WaiterStarts(availableCpus, online, k)) ==
            [Holder] + WaiterRange(k)
  {
    WaiterSpawnOrder(availableCpus, online, k);
    SpawnedWorkersAppend(HolderStart(online), WaiterStarts(availableCpus, online, k));
    SpawnedWorkersSingle(Spawn(Holder));
    if HOLDER_CPU in online {
      SpawnedWorkersSingle(Pin(Holder, HOLDER_CPU));
      SpawnedWorkersAppend([Spawn(Holder)], [Pin(Holder, HOLDER_CPU)]);
    } else {
      assert HolderStart(online) == [Spawn(Holder)];
    }
  }

  lemma SpawnedWorkersSingle(e: Event)
    ensures SpawnedWorkers([e]) == if e.Spawn? then [e.who] else []
  {
  }

  lemma {:induction false} WaiterSpawnOrder(availableCpus: int, online: set<int>, k: nat)
    requires availableCpus >= 1
    ensures SpawnedWorkers(WaiterStarts(availableCpus, online, k)) == WaiterRange(k)
  {
    if k > 0 {
      var prev := WaiterStarts(availableCpus, online, k - 1);
      var cpu := TargetCpu(k - 1, availableCpus);
      var pin := PinIfOnline(Waiter(k - 1), cpu, online);
      WaiterSpawnOrder(availableCpus, online, k - 1);
      SpawnedWorkersAppend(prev, [Spawn(Waiter(k - 1))]);
      SpawnedWorkersAppend(prev + [Spawn(Waiter(k - 1))], pin);
      SpawnedWorkersSingle(Spawn(Waiter(k - 1)));
      if cpu in online {
        SpawnedWorkersSingle(Pin(Waiter(k - 1), cpu));
      }
      assert SpawnedWorkers(pin) == [];
      WaiterRangeSnoc(k);
    }
  }

  lemma WaiterRangeSnoc(k: nat)
    requires k > 0
    ensures WaiterRange(k) == WaiterRange(k - 1) + [Waiter(k - 1)]
  {
    assert forall i :: 0 <= i < k ==> WaiterRange(k)[i] == (WaiterRange(k - 1) + [Waiter(k - 1)])[i];
  }

  /** Every pin issued at startup goes to an online CPU: the holder's to CPU 0,
      waiter i's to its target CPU. Conversely a started waiter is pinned
      exactly when its target CPU is online. */
  lemma {:induction false} StartupPins(availableCpus: int, online: set<int>, k: nat)
    requires availableCpus >= 1
    ensures var t := WaiterStarts(availableCpus, online, k);
      && (forall p :: 0 <= p < |t| && t[p].Pin? ==>
            t[p].cpu in online && t[p].who.Waiter? && t[p].who.index < k &&
            t[p].cpu == TargetCpu(t[p].who.index, availableCpus))
      && (forall i :: 0 <= i < k ==>
            (Pin(Waiter(i), TargetCpu(i, availableCpus)) in t <==> TargetCpu(i, availableCpus) in online))
    ensures Pin(Holder, HOLDER_CPU) in HolderStart(online) <==> HOLDER_CPU in online
    ensures forall e :: e in HolderStart(online) && e.Pin? ==> e == Pin(Holder, HOLDER_CPU)
  {
    if k > 0 {
      StartupPins(availableCpus, online, k - 1);
      var t := WaiterStarts(availableCpus, online, k);
      var prev := WaiterStarts(availableCpus, online, k - 1);
      var cpu := TargetCpu(k - 1, availableCpus);
      assert t == prev + [Spawn(Waiter(k - 1))] + PinIfOnline(Waiter(k - 1), cpu, online);
      forall i | 0 <= i < k
        ensures Pin(Waiter(i), TargetCpu(i, availableCpus)) in t <==> TargetCpu(i, availableCpus) in online
      {
        if i < k - 1 {
          assert Pin(Waiter(i), TargetCpu(i, availableCpus)) !in [Spawn(Waiter(k - 1))] + PinIfOnline(Waiter(k - 1), cpu, online);
        }
      }
    }
  }

  /** The pins init issues to waiters follow the placement table: waiter i
      is pinned to entry i of WaiterTargets. */
  lemma PinsFollowPlacementTable(availableCpus: int, online: set<int>, k: nat)
    requires availableCpus >= 1 && k <= NumWaiters(availableCpus)
    ensures var t := WaiterStarts(availableCpus, online, k);
      forall p :: 0 <= p < |t| && t[p].Pin? ==>
        t[p].who.Waiter? && t[p].who.index < |WaiterTargets(availableCpus)| &&
        t[p].cpu == WaiterTargets(availableCpus)[t[p].who.index]
  {
    StartupPins(availableCpus, online, k);
  }

  /** On unload of a fully started module every waiter is stopped, waiter 0
      first, in ascending order: the stops are exactly one per slot. */
  lemma {:induction false} StopsUpAllSet(slots: seq<TaskPtr>, n: nat)
    requires n <= |slots|
    requires forall i :: 0 <= i < n ==> slots[i] != Null
    ensures |StopsUp(slots, n)| == n
    ensures forall p :: 0 <= p < n ==> StopsUp(slots, n)[p] == Stop(Waiter(p), slots[p])
  {
    if n > 0 {
      StopsUpAllSet(slots, n - 1);
    }
  }

  /** Every waiter stop issued on unload targets a non-NULL slot below `n`,
      the stops go in strictly ascending slot order, and every non-NULL slot
      below `n` is stopped. */
  lemma {:induction false} StopsUpOrder(slots: seq<TaskPtr>, n: nat)
    requires n <= |slots|
    ensures var t := StopsUp(slots, n);
      && (forall p :: 0 <= p < |t| ==>
            t[p].Stop? && t[p].who.Waiter? && t[p].who.index < n &&
            t[p].target == slots[t[p].who.index] && t[p].target != Null)
      && (forall p, q :: 0 <= p < q < |t| ==> t[p].who.index < t[q].who.index)
      && (forall i :: 0 <= i < n && slots[i] != Null ==> Stop(Waiter(i), slots[i]) in t)
  {
    if n > 0 {
      StopsUpOrder(slots, n - 1);
      var prev := StopsUp(slots, n - 1);
      assert StopsUp(slots, n) == prev + StopIfSet(Waiter(n - 1), slots[n - 1]);
    }
  }

  /** Unload stops waiters before the holder: all stops issued are of
      non-NULL pointers, waiters' in ascending order, and the holder's stop,
      issued exactly when its pointer is non-NULL, comes last. */
  lemma ExitOrder(slots: seq<TaskPtr>, n: nat, holder: TaskPtr)
    requires n <= |slots|
    ensures var t := ExitStops(slots, n, holder);
      && (forall p :: 0 <= p < |t| ==> t[p].Stop? && t[p].target != Null)
      && (forall p, q :: 0 <= p < q < |t| && t[q].who.Waiter? ==>
            t[p].who.Waiter? && t[p].who.index < t[q].who.index)
      && (forall p :: 0 <= p < |t| && t[p].who == Holder ==> p == |t| - 1)
      && (Stop(Holder, holder) in t <==> holder != Null)
  {
    StopsUpOrder(slots, n);
  }

  /** A module whose waiters and holder were all spawned is unloaded by
      stopping waiters 0, 1, .., n-1 and then the holder, each exactly once. */
  lemma ExitAfterSuccessfulInit(slots: seq<TaskPtr>, n: nat, holder: TaskPtr)
    requires n <= |slots|
    requires forall i :: 0 <= i < n ==> slots[i].Task?
    requires holder.Task?
    ensures var t := ExitStops(slots, n, holder);
      && |t| == n + 1
      && (forall p :: 0 <= p < n ==> t[p] == Stop(Waiter(p), slots[p]))
      && t[n] == Stop(Holder, holder)
  {
    StopsUpAllSet(slots, n);
  }

  /** After unload has cleared every slot below `n` and the holder, a second
      unload issues no stops. */
  lemma {:induction false} SecondExitStopsNothing(slots: seq<TaskPtr>, n: nat)
    requires n <= |slots|
    requires forall i :: 0 <= i < n ==> slots[i] == Null
    ensures ExitStops(slots, n, Null) == []
  {
    if n > 0 {
      SecondExitStopsNothing(slots, n - 1);
    }
  }

  /** The startup rollback after waiter k failed stops waiters k-1, k-2, .., 0
      in that order, each exactly once, when all of them were launched. */
  lemma {:induction false} RollbackStopsDescending(slots: seq<TaskPtr>, lo: nat, hi: nat)
    requires lo <= hi <= |slots|
    requires forall i :: lo <= i < hi ==> slots[i] != Null
    ensures |StopsDown(slots, lo, hi)| == hi - lo
    ensures forall p :: 0 <= p < hi - lo ==>
      StopsDown(slots, lo, hi)[p] == Stop(Waiter(hi - 1 - p), slots[hi - 1 - p])
    decreases hi - lo
  {
    if lo < hi {
      RollbackStopsDescending(slots, lo + 1, hi);
    }
  }

  /** Failed startup end to end: when waiter k is the first to fail, the
      rollback stops exactly the launched waiters k-1 down to 0 and then the
      holder. */
  lemma RollbackAfterWaiterFailure(spawns: seq<SpawnResult>, n: nat, holder: Handle)
    requires n < |spawns|
    requires FirstFailureFrom(spawns, n, 0) < n
    ensures var k := FirstFailureFrom(spawns, n, 0);
      var t := StopsDown(Launched(spawns, k), 0, k) + [Stop(Holder, Task(holder))];
      && |t| == k + 1
      && (forall p :: 0 <= p < k ==> t[p] == Stop(Waiter(k - 1 - p), Task(spawns[k - p].task)))
      && t[k] == Stop(Holder, Task(holder))
  {
    var k := FirstFailureFrom(spawns, n, 0);
    RollbackStopsDescending(Launched(spawns, k), 0, k);
  }
}
