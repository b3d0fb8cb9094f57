/** The holder and waiter thread bodies. Both run the same loop shape:
    poll the stop flag at the loop head, take the shared spinlock, sleep while
    holding it, release it, sleep again. The loop is modelled sequentially with
    an abstract "held" flag; the lock operations are recorded as a trace. */
module Worker {

  /** One step a worker performs. `ShouldStop` is a poll of the stop flag with
      its answer; `Hold` is the sleep taken with the lock held and `Pause` the
      sleep taken after releasing it. */
  datatype Op = ShouldStop(stop: bool) | Lock | Hold | Unlock | Pause

  /** Outcome of replaying a sequence of operations: the lock state reached,
      or Broken when the discipline was violated along the way. */
  datatype LockState = Held(held: bool) | Broken

  /** Lock state after `op`, starting from `held`. */
  function After(held: bool, op: Op): bool
  {
    match op
    case Lock => true
    case Unlock => false
    case _ => held
  }

  /** Whether `op` is allowed in lock state `held`: the lock is not taken
      recursively, only released when held, the hold sleep happens under the
      lock, and the stop flag and the pause happen outside it. */
  predicate Allowed(held: bool, op: Op)
  {
    match op
    case Lock => !held
    case Unlock => held
    case Hold => held
    case ShouldStop(_) => !held
    case Pause => !held
  }

  /** Replays `ops` from an unlocked start: the lock state afterwards, or Broken
      when some operation was not allowed where it occurred. */
  function Replay(ops: seq<Op>): LockState
    decreases |ops|
  {
    if ops == [] then Held(false)
    else
      match Replay(ops[..|ops| - 1])
      case Held(h) =>
        if Allowed(h, ops[|ops| - 1]) then Held(After(h, ops[|ops| - 1])) else Broken
      case Broken => Broken
  }

  /** Number of polls of the stop flag in `ops` that answered `stop`. */
  function Polls(ops: seq<Op>, stop: bool): nat
  {
    if ops == [] then 0
    else Polls(ops[..|ops| - 1], stop) + (if ops[|ops| - 1] == ShouldStop(stop) then 1 else 0)
  }

  /** Number of lock acquisitions in `ops`. */
  function Locks(ops: seq<Op>): nat
  {
    if ops == [] then 0
    else Locks(ops[..|ops| - 1]) + (if ops[|ops| - 1] == Lock then 1 else 0)
  }

  /** The lock discipline a worker run promises: every operation was allowed
      where it occurred (so each acquisition is released before the next stop
      poll), the run ends with the poll that saw the stop request, no earlier
      poll saw it, and the lock is free when the worker leaves. */
  predicate Disciplined(ops: seq<Op>)
  {
    Replay(ops) == Held(false) &&
    |ops| > 0 && ops[|ops| - 1] == ShouldStop(true) &&
    forall i :: 0 <= i < |ops| - 1 ==> ops[i] != ShouldStop(true)
  }

  /** Replaying and counting after one more allowed operation. */
  lemma Extend(ops: seq<Op>, op: Op)
    requires Replay(ops).Held? && Allowed(Replay(ops).held, op)
    ensures Replay(ops + [op]) == Held(After(Replay(ops).held, op))
    ensures Locks(ops + [op]) == Locks(ops) + (if op == Lock then 1 else 0)
    ensures Polls(ops + [op], false) == Polls(ops, false) + (if op == ShouldStop(false) then 1 else 0)
    ensures Polls(ops + [op], true) == Polls(ops, true) + (if op == ShouldStop(true) then 1 else 0)
  {
  }

  /** Replaying and counting after one loop iteration: lock, hold, unlock,
      pause, and the next poll of the stop flag. */
  lemma ExtendByCycle(ops: seq<Op>, stop: bool)
    requires Replay(ops) == Held(false)
    ensures Replay(ops + [Lock, Hold, Unlock, Pause, ShouldStop(stop)]) == Held(false)
    ensures Locks(ops + [Lock, Hold, Unlock, Pause, ShouldStop(stop)]) == Locks(ops) + 1
    ensures Polls(ops + [Lock, Hold, Unlock, Pause, ShouldStop(stop)], false) ==
      Polls(ops, false) + (if stop then 0 else 1)
  {
    var s := ops;
    Extend(s, Lock);
    s := s + [Lock];
    Extend(s, Hold);
    s := s + [Hold];
    Extend(s, Unlock);
    s := s + [Unlock];
    Extend(s, Pause);
    s := s + [Pause];
    Extend(s, ShouldStop(stop));
    s := s + [ShouldStop(stop)];
    assert s == ops + [Lock, Hold, Unlock, Pause, ShouldStop(stop)];
  }

  /** One run of a worker thread (holder or waiter) whose stop flag reads false
      `stopAfter` times and true from then on. Returns the operations it
      performed; the run is disciplined and takes the lock once per false poll. */
  method Run(stopAfter: nat) returns (ops: seq<Op>)
    ensures Disciplined(ops)
    ensures Locks(ops) == Polls(ops, false) == stopAfter
  {
    var held := false;
    var polls := 0;
    var stop := polls >= stopAfter;
    ops := [ShouldStop(stop)];
    while !stop
      invariant polls <= stopAfter
      invariant stop <==> polls == stopAfter
      invariant !held && Replay(ops) == Held(held)
      invariant |ops| > 0 && ops[|ops| - 1] == ShouldStop(stop)
      invariant forall i :: 0 <= i < |ops| - 1 ==> ops[i] != ShouldStop(true)
      invariant Locks(ops) == polls
      invariant Polls(ops, false) == polls + (if stop then 0 else 1)
      decreases stopAfter - polls
    {
      ghost var start := ops;
      ops := ops + [Lock];
      held := true;
      ops := ops + [Hold];
      ops := ops + [Unlock];
      held := false;
      ops := ops + [Pause];
      polls := polls + 1;
      stop := polls >= stopAfter;
      ops := ops + [ShouldStop(stop)];
      assert ops == start + [Lock, Hold, Unlock, Pause, ShouldStop(stop)];
      ExtendByCycle(start, stop);
    }
  }
}
