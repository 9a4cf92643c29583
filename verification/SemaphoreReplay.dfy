/**
  Every run of the transition system is one of the linked queue: its steps can be carried out, one
  after the other, by the methods of the semaphore.
 */
module SemaphoreReplay {
  import opened Words
  import opened SemaphoreSpec
  import opened Semaphore
  import opened SemaphoreRuns

  lemma PositionIs(q: seq<Waiter>, i: nat)
    requires DistinctTids(q) && i < |q|
    ensures Position(q, q[i].tid) == i
  {
  }

  /** One step, by the method that stands for it; a notification only wakes its thread up. */
  method Step(sem: FifoSemaphore, a: Action, ghost s: Sys)
    requires sem.Valid() && Numbered(s) && Enabled(s, a) && sem.abs == s.sem
    modifies sem, sem.nodes
    ensures sem.Valid() && sem.abs == Apply(s, a).sem && fresh(sem.nodes - old(sem.nodes))
  {
    match a
    case DoSignal(n) => sem.Signal(n);
    case DoPoll(_, need) => var outcome := sem.Poll(need);
    case DoWait(tid, need) => var outcome := sem.WaitEnter(tid, need);
    case DoTryWait(tid, need) => var outcome := sem.TryWaitEnter(tid, need);
    case DoNotify(_) =>
    case DoRecheck(tid) => Look(sem, tid, s);
    case DoTimeout(tid) => GiveUp(sem, tid);
  }

  method Look(sem: FifoSemaphore, tid: int, ghost s: Sys)
    requires sem.Valid() && Numbered(s) && Enabled(s, DoRecheck(tid)) && sem.abs == s.sem
    modifies sem, sem.nodes
    ensures sem.Valid() && sem.abs == Apply(s, DoRecheck(tid)).sem && sem.nodes == old(sem.nodes)
  {
    var granted := sem.Recheck(tid);
  }

  method GiveUp(sem: FifoSemaphore, tid: int)
    requires sem.Valid() && IsParked(sem.abs, tid) && !sem.abs.queue[Position(sem.abs.queue, tid)].signaled
    requires TimeoutIsSafe(sem.abs, Position(sem.abs.queue, tid))
    modifies sem, sem.nodes
    ensures sem.Valid() && sem.abs == Timeout(old(sem.abs), Position(old(sem.abs.queue), tid))
    ensures sem.nodes == old(sem.nodes)
  {
    sem.QueueIsDistinct();
    sem.MayTimeOut(Position(sem.abs.queue, tid));
    ghost var q := sem.abs.queue;
    ghost var i := sem.TimeOut(tid);
    PositionIs(q, i);
  }

  lemma Advance(s: Sys, acts: seq<Action>, t: Sys, initCount: int) returns (u: Sys)
    requires Inv(s, initCount) && Runs(s, acts, t) && acts != []
    ensures Numbered(s) && Enabled(s, acts[0]) && u == Apply(s, acts[0])
    ensures Inv(u, initCount) && Runs(u, acts[1..], t)
  {
    StepInv(s, acts[0], initCount);
    u := Apply(s, acts[0]);
  }

  /** The links of the queue spell out what the transition system says, after any run. */
  method Replay(initCount: int, acts: seq<Action>, ghost t: Sys) returns (sem: FifoSemaphore)
    requires Runs(Init(initCount), acts, t)
    ensures sem.Valid() && sem.abs == t.sem
  {
    sem := new FifoSemaphore(initCount);
    InitInv(initCount);
    Follow(sem, acts, Init(initCount), t, initCount);
  }

  method Follow(sem: FifoSemaphore, acts: seq<Action>, ghost s: Sys, ghost t: Sys, ghost initCount: int)
    requires sem.Valid() && sem.abs == s.sem && Inv(s, initCount) && Runs(s, acts, t)
    modifies sem, sem.nodes
    ensures sem.Valid() && sem.abs == t.sem
    decreases |acts|
  {
    if acts != [] {
      ghost var u := Advance(s, acts, t, initCount);
      Step(sem, acts[0], s);
      Follow(sem, acts[1..], u, t, initCount);
    }
  }
}
