/**
  The FIFO semaphore as a value: what each critical section of
  core/kernel/semaphore_fifo.cpp does to the count and to the queue of parked threads.
 */
module SemaphoreSpec {
  import opened Words

  /** A parked thread. `signaled` is the hand-off flag the head receives. */
  datatype Waiter = Waiter(tid: int, needs: nat, signaled: bool)

  /** `freshHead` says that the head's back link is null; it matters to time-outs only. */
  datatype Sem = Sem(count: nat, queue: seq<Waiter>, freshHead: bool)

  datatype Outcome = Granted | Parked | Again | Busy

  // ---- critical sections ----

  function NotifyHead(count: nat, queue: seq<Waiter>): seq<Waiter> {
    if queue != [] && queue[0].needs <= count then queue[0 := queue[0].(signaled := true)] else queue
  }

  function Signal(s: Sem, n: int): Sem {
    var count := ToU32(s.count + n);
    s.(count := count, queue := NotifyHead(count, s.queue))
  }

  predicate CanTake(s: Sem, need: int) {
    s.queue == [] && ToU32(need) <= s.count
  }

  function Take(s: Sem, need: int): Sem
    requires CanTake(s, need)
  {
    s.(count := s.count - ToU32(need))
  }

  function Enqueue(s: Sem, tid: int, need: int): Sem {
    s.(queue := s.queue + [Waiter(tid, ToU32(need), false)])
  }

  function Poll(s: Sem, need: int): Sem {
    if CanTake(s, need) then Take(s, need) else s
  }

  function Wait(s: Sem, tid: int, need: int): Sem {
    if CanTake(s, need) then Take(s, need) else Enqueue(s, tid, need)
  }

  function TryWait(s: Sem, tid: int, need: int): Sem {
    if s.queue != [] then s else Wait(s, tid, need)
  }

  predicate HeadSignaled(s: Sem) {
    s.queue != [] && s.queue[0].signaled
  }

  /** The signaled head takes its units, leaves the queue and hands over to the next one. */
  function Wake(s: Sem): Sem
    requires HeadSignaled(s)
  {
    var count := ToU32(s.count - s.queue[0].needs);
    Sem(count, NotifyHead(count, s.queue[1..]), |s.queue| == 1)
  }

  /** The waiters without the one at position `i`. */
  function Without<T>(q: seq<T>, i: nat): seq<T>
    requires i < |q|
  {
    q[..i] + q[i + 1..]
  }

  /** Exactly the time-outs that the linked queue survives. */
  predicate TimeoutIsSafe(s: Sem, i: nat) {
    i + 1 < |s.queue| && (i == 0 ==> s.freshHead)
  }

  function Timeout(s: Sem, i: nat): Sem
    requires i < |s.queue|
  {
    var rest := Without(s.queue, i);
    s.(queue := if i == 0 then NotifyHead(s.count, rest) else rest)
  }

  // ---- what every critical section keeps ----

  predicate DistinctTids(q: seq<Waiter>) {
    forall i, j :: 0 <= i < j < |q| ==> q[i].tid != q[j].tid
  }

  /** A head whose need fits has been handed the semaphore: no wake-up is lost. */
  predicate FitsImpliesSignaled(s: Sem) {
    s.queue != [] && s.queue[0].needs <= s.count ==> s.queue[0].signaled
  }

  /** A head that was handed the semaphore still fits, so taking its units cannot underflow. */
  predicate SignaledImpliesFits(s: Sem) {
    HeadSignaled(s) ==> s.queue[0].needs <= s.count
  }

  predicate WellFormed(s: Sem) {
    && s.count < U32
    && (forall i :: 0 <= i < |s.queue| ==> s.queue[i].needs < U32)
    && (forall i :: 1 <= i < |s.queue| ==> !s.queue[i].signaled)
    && (s.queue == [] ==> s.freshHead)
    && FitsImpliesSignaled(s)
  }

  predicate IsParked(s: Sem, tid: int) {
    exists i :: 0 <= i < |s.queue| && s.queue[i].tid == tid
  }

  lemma SignalKeeps(s: Sem, n: int)
    requires WellFormed(s)
    ensures WellFormed(Signal(s, n))
  {
  }

  lemma EnqueueKeeps(s: Sem, tid: int, need: int)
    requires WellFormed(s) && !CanTake(s, need)
    ensures WellFormed(Enqueue(s, tid, need))
  {
  }

  lemma WakeKeepsWellFormed(s: Sem)
    requires WellFormed(s) && HeadSignaled(s)
    ensures WellFormed(Wake(s))
  {
  }

  lemma TimeoutKeepsWellFormed(s: Sem, i: nat)
    requires WellFormed(s) && i < |s.queue| && !s.queue[i].signaled
    requires TimeoutIsSafe(s, i)
    ensures WellFormed(Timeout(s, i))
  {
  }

  // ---- the wake-up cascade ----

  function PrefixSum(q: seq<Waiter>, k: nat): nat
    requires k <= |q|
  {
    if k == 0 then 0 else PrefixSum(q, k - 1) + q[k - 1].needs
  }

  /** Whether `k` hand-offs can follow one another with no other call in between. */
  predicate CanCascade(s: Sem, k: nat)
    decreases k
  {
    k == 0 || (HeadSignaled(s) && CanCascade(Wake(s), k - 1))
  }

  function Cascade(s: Sem, k: nat): Sem
    requires CanCascade(s, k)
    decreases k
  {
    if k == 0 then s else Cascade(Wake(s), k - 1)
  }

  lemma {:induction false} PrefixSumTail(q: seq<Waiter>, k: nat)
    requires 0 < k <= |q|
    ensures PrefixSum(q, k) == q[0].needs + PrefixSum(q[1..], k - 1)
  {
    if k > 1 {
      PrefixSumTail(q, k - 1);
    }
  }

  lemma {:induction false} PrefixSumNotify(c: nat, q: seq<Waiter>, k: nat)
    requires k <= |q|
    ensures PrefixSum(NotifyHead(c, q), k) == PrefixSum(q, k)
  {
    if k > 0 {
      PrefixSumNotify(c, q, k - 1);
    }
  }

  lemma {:induction false} PrefixSumMonotone(q: seq<Waiter>, j: nat, k: nat)
    requires j <= k <= |q|
    ensures PrefixSum(q, j) <= PrefixSum(q, k)
  {
    if j < k {
      PrefixSumMonotone(q, j, k - 1);
    }
  }

  /** Waking the head keeps every invariant, and takes exactly what the head asked for. */
  lemma WakeKeeps(s: Sem)
    requires WellFormed(s) && SignaledImpliesFits(s) && HeadSignaled(s)
    ensures WellFormed(Wake(s)) && SignaledImpliesFits(Wake(s))
    ensures Wake(s).count == s.count - s.queue[0].needs
  {
  }

  /**
    The cascade grants exactly the longest prefix of the queue whose summed needs fit:
    `k` hand-offs can happen if and only if the first `k` needs fit together.
   */
  lemma {:induction false} CascadeGrantsLongestPrefix(s: Sem, k: nat)
    requires WellFormed(s) && SignaledImpliesFits(s)
    requires k <= |s.queue|
    ensures CanCascade(s, k) <==> PrefixSum(s.queue, k) <= s.count
    ensures CanCascade(s, k) ==>
              var t := Cascade(s, k);
              && t.count == s.count - PrefixSum(s.queue, k)
              && t.queue == NotifyHead(t.count, s.queue[k..])
              && WellFormed(t) && SignaledImpliesFits(t)
    decreases k
  {
    if k == 0 {
      assert s.queue[0..] == s.queue;
      assert NotifyHead(s.count, s.queue) == s.queue;
    } else {
      PrefixSumTail(s.queue, k);
      if HeadSignaled(s) {
        var w := Wake(s);
        WakeKeeps(s);
        CascadeGrantsLongestPrefix(w, k - 1);
        PrefixSumNotify(w.count, s.queue[1..], k - 1);
        if k > 1 {
          assert w.queue[k - 1..] == s.queue[k..];
        } else {
          assert s.queue[1..] == s.queue[k..];
        }
      }
    }
  }

  /** Beyond the longest fitting prefix nothing moves: the cascade has come to rest there. */
  lemma CascadeComesToRest(s: Sem, k: nat)
    requires WellFormed(s) && SignaledImpliesFits(s)
    requires k <= |s.queue| && PrefixSum(s.queue, k) <= s.count
    ensures CanCascade(s, k)
    ensures !HeadSignaled(Cascade(s, k)) <==> k == |s.queue| || s.count < PrefixSum(s.queue, k + 1)
    ensures !HeadSignaled(Cascade(s, k)) ==>
              forall j :: k < j <= |s.queue| ==> !CanCascade(s, j)
  {
    CascadeGrantsLongestPrefix(s, k);
    if k < |s.queue| {
      var t := Cascade(s, k);
      if s.count < PrefixSum(s.queue, k + 1) {
        forall j | k < j <= |s.queue| ensures !CanCascade(s, j) {
          PrefixSumMonotone(s.queue, k + 1, j);
          CascadeGrantsLongestPrefix(s, j);
        }
      }
    }
  }
}
