/**
  The FIFO semaphore as core/kernel/semaphore_fifo.cpp builds it: an intrusive, doubly linked
  queue of per-thread nodes. Each method is one critical section under `m_mutexInt`.
 */
module Semaphore {
  import opened Words
  import opened SemaphoreSpec

  datatype SemState = Idle | Signaled | Waiting

  class SemData {
    const tid: int
    var needs: nat
    var state: SemState
    var parent: SemData?
    var child: SemData?

    constructor (tid: int)
      ensures this.tid == tid && needs == 0 && state == Idle && parent == null && child == null
    {
      this.tid := tid;
      needs, state, parent, child := 0, Idle, null, null;
    }
  }

  /** Always true: singles out the nodes that the quantifiers over `nodes` are used for. */
  ghost predicate Focus(n: SemData) {
    true
  }

  /** The per-thread nodes, each listed under its thread, and that no link leaves them. */
  ghost predicate Owned(nodes: set<SemData>, semData: map<int, SemData>)
    reads nodes`parent
  {
    && (forall t :: t in semData ==> semData[t] in nodes && semData[t].tid == t)
    && (forall n {:trigger Focus(n)} :: n in nodes && Focus(n) ==> n.tid in semData && semData[n.tid] == n)
    && (forall n {:trigger Focus(n)} :: n in nodes && Focus(n) && n.parent != null ==> n.parent in nodes && n.parent != n)
  }

  predicate Distinct(q: seq<SemData>) {
    forall i, j :: 0 <= i < j < |q| ==> q[i] != q[j]
  }

  lemma DistinctWithout(q: seq<SemData>, i: nat)
    requires Distinct(q) && i < |q|
    ensures Distinct(Without(q, i))
    ensures forall n :: n in q && n != q[i] ==> n in Without(q, i)
    ensures forall n :: n in Without(q, i) ==> n in q && n != q[i]
  {
    forall n | n in q && n != q[i] ensures n in Without(q, i) {
      var k :| 0 <= k < |q| && q[k] == n;
      assert Without(q, i)[if k < i then k else k - 1] == n;
    }
  }

  /** `q` lists exactly the nodes that are not idle, each of them once. */
  ghost predicate Lists(nodes: set<SemData>, q: seq<SemData>)
    reads nodes`state
  {
    && Distinct(q)
    && (forall i :: 0 <= i < |q| ==> q[i] in nodes && q[i].state != Idle)
    && (forall n {:trigger Focus(n)} :: n in nodes && Focus(n) && n.state != Idle ==> n in q)
  }

  /** The links spell out `q`, oldest first. The head's own back link may be stale. */
  ghost predicate Linked(q: seq<SemData>, start: SemData?, back: SemData?)
    reads q`child, q`parent
  {
    && start == (if q == [] then null else q[0])
    && back == (if q == [] then null else q[|q| - 1])
    && (q != [] ==> q[|q| - 1].child == null)
    && (forall i {:trigger q[i].child} :: 0 <= i < |q| - 1 ==> q[i].child == q[i + 1])
    && (forall i {:trigger q[i].parent} :: 1 <= i < |q| ==> q[i].parent == q[i - 1])
  }

  /** Nodes outside the queue carry no link into it. */
  ghost predicate Unlinked(nodes: set<SemData>)
    reads nodes`state, nodes`child, nodes`parent
  {
    forall n {:trigger Focus(n)} :: n in nodes && Focus(n) && n.state == Idle ==> n.child == null && n.parent == null
  }

  /** `abs` is the value of the linked queue `q` with count `count`. */
  ghost predicate Agrees(abs: Sem, count: nat, q: seq<SemData>)
    reads q`needs, q`state, q`parent
  {
    && abs.count == count
    && |abs.queue| == |q|
    && (forall i :: 0 <= i < |q| ==> abs.queue[i] == Waiter(q[i].tid, q[i].needs, q[i].state == Signaled))
    && abs.freshHead == (q == [] || q[0].parent == null)
  }

  ghost predicate Shape(nodes: set<SemData>, semData: map<int, SemData>, q: seq<SemData>, start: SemData?, back: SemData?)
    reads nodes, q
  {
    Owned(nodes, semData) && Lists(nodes, q) && Unlinked(nodes) && Linked(q, start, back)
  }

  /** Position `p` leaves `q`; `k` is a position in what remains. */
  datatype Removal = Removal(q: seq<SemData>, p: nat, k: nat)

  /** The forward link that a safe removal leaves. */
  twostate lemma RemovedChildAt(r: Removal)
    requires Distinct(r.q) && r.p + 1 < |r.q| && r.k + 1 < |r.q|
    requires forall i {:trigger r.q[i].child} {:trigger old(r.q[i].child)} :: 0 <= i < |r.q| && i != r.p ==>
      && old(r.q[i].child) == (if i + 1 < |r.q| then r.q[i + 1] else null)
      && r.q[i].child == (if i + 1 == r.p then r.q[r.p + 1] else old(r.q[i].child))
    ensures Without(r.q, r.p)[r.k].child ==
            if r.k + 2 < |r.q| then Without(r.q, r.p)[r.k + 1] else null
  {
  }

  /** The back link that a safe removal leaves. */
  twostate lemma RemovedParentAt(r: Removal)
    requires Distinct(r.q) && r.p + 1 < |r.q| && 1 <= r.k && r.k + 1 < |r.q|
    requires forall i {:trigger r.q[i].parent} {:trigger old(r.q[i].parent)} :: 1 <= i < |r.q| && i != r.p ==>
      && old(r.q[i].parent) == r.q[i - 1]
      && (i != r.p + 1 ==> r.q[i].parent == old(r.q[i].parent))
    requires r.p > 0 ==> r.q[r.p + 1].parent == r.q[r.p - 1]
    ensures Without(r.q, r.p)[r.k].parent == Without(r.q, r.p)[r.k - 1]
  {
  }

  class FifoSemaphore {
    var signalValue: nat
    var semData: map<int, SemData>
    var curBack: SemData?
    var curStart: SemData?

    /** The parked nodes, oldest first: what following `child` from `curStart` visits. */
    ghost var queue: seq<SemData>
    /** The nodes ever put into `semData`. */
    ghost var nodes: set<SemData>
    /** Where the last time-out took place. */
    ghost var place: nat
    /** The semaphore as a value. */
    ghost var abs: Sem

    ghost predicate Valid()
      reads this, nodes, queue
    {
      && Shape(nodes, semData, queue, curStart, curBack)
      && Agrees(abs, signalValue, queue)
      && WellFormed(abs)
    }

    /** A parked thread's node is the one listed under the thread. */
    lemma NodeAt(i: nat)
      requires Valid() && i < |queue|
      ensures |abs.queue| == |queue| && abs.queue[i].tid == queue[i].tid
      ensures queue[i].tid in semData && semData[queue[i].tid] == queue[i]
      ensures semData[queue[i].tid].state == if abs.queue[i].signaled then Signaled else Waiting
    {
      assert Focus(queue[i]);
    }

    /** No thread is parked twice. */
    lemma QueueIsDistinct()
      requires Valid()
      ensures DistinctTids(abs.queue)
    {
      forall i, j | 0 <= i < j < |abs.queue| ensures abs.queue[i].tid != abs.queue[j].tid {
        NodeAt(i);
        NodeAt(j);
      }
    }

    /** A thread is parked if and only if its node is not idle. */
    lemma ParkedIff(tid: int)
      requires Valid()
      ensures IsParked(abs, tid) <==> tid in semData && semData[tid].state != Idle
    {
      if IsParked(abs, tid) {
        var i :| 0 <= i < |abs.queue| && abs.queue[i].tid == tid;
        NodeAt(i);
      }
      if tid in semData && semData[tid].state != Idle {
        assert Focus(semData[tid]);
        var i :| 0 <= i < |queue| && queue[i] == semData[tid];
        assert abs.queue[i].tid == tid;
      }
    }

    constructor (initCount: int)
      ensures Valid() && nodes == {}
      ensures abs == Sem(ToU32(initCount), [], true)
    {
      signalValue := ToU32(initCount);
      semData := map[];
      curBack, curStart := null, null;
      queue, nodes := [], {};
      abs := Sem(ToU32(initCount), [], true);
    }

    /** signal: 129-149 */
    method Signal(signalCount: int)
      requires Valid()
      modifies this`signalValue, this`abs, nodes
      ensures Valid()
      ensures abs == SemaphoreSpec.Signal(old(abs), signalCount)
      ensures signalValue == ToU32(old(signalValue) + signalCount) && queue == old(queue)
      ensures queue != [] && queue[0].needs <= signalValue ==> queue[0].state == Signaled
    {
      assert curStart != null ==> curStart in nodes;
      signalValue := ToU32(signalValue + signalCount);
      if curStart != null && curStart.needs <= signalValue {
        curStart.state := Signaled;
      }
      abs := SemaphoreSpec.Signal(abs, signalCount);
      SignaledKeeps(signalCount);
    }

    /** What a signal does to the nodes: at most the head changes. */
    twostate predicate SignalStep()
      reads this, nodes
    {
      && nodes == old(nodes) && semData == old(semData) && queue == old(queue)
      && curStart == old(curStart) && curBack == old(curBack)
      && (forall n {:trigger n.child} {:trigger n.parent} {:trigger n.needs} {:trigger n.state} :: n in nodes ==>
            && n.child == old(n.child) && n.parent == old(n.parent) && n.needs == old(n.needs)
            && n.state == if n == curStart && n.needs <= signalValue then Signaled else old(n.state))
    }

    twostate lemma SignaledShape()
      requires old(Valid()) && SignalStep()
      ensures Shape(nodes, semData, queue, curStart, curBack)
    {
    }

    twostate lemma SignaledKeeps(signalCount: int)
      requires old(Valid()) && SignalStep()
      requires abs == SemaphoreSpec.Signal(old(abs), signalCount) && signalValue == abs.count
      ensures Valid()
    {
      SignaledShape();
      SignalKeeps(old(abs), signalCount);
    }

    /** poll_internal: 299-306, whatever state the links are in. */
    method PollInternal(needCount: int) returns (ok: bool)
      modifies this`signalValue
      ensures ok <==> curBack == null && ToU32(needCount) <= old(signalValue)
      ensures signalValue == if ok then old(signalValue) - ToU32(needCount) else old(signalValue)
    {
      if curBack == null && ToU32(needCount) <= signalValue {
        signalValue := signalValue - ToU32(needCount);
        return true;
      }
      return false;
    }

    /** poll: 308-311 */
    method Poll(needCount: int) returns (outcome: Outcome)
      requires Valid()
      modifies this`signalValue, this`abs
      ensures Valid()
      ensures abs == SemaphoreSpec.Poll(old(abs), needCount)
      ensures outcome == if CanTake(old(abs), needCount) then Granted else Again
    {
      var ok := PollInternal(needCount);
      outcome := if ok then Granted else Again;
      abs := SemaphoreSpec.Poll(abs, needCount);
    }

    /** wait_internal up to the point where the thread parks: 151-187 */
    method WaitEnter(tid: int, needCount: int) returns (outcome: Outcome)
      requires Valid() && !IsParked(abs, tid)
      modifies this, nodes
      ensures Valid()
      ensures abs == SemaphoreSpec.Wait(old(abs), tid, needCount)
      ensures outcome == if CanTake(old(abs), needCount) then Granted else Parked
      ensures outcome == Parked ==> tid in semData && semData[tid].state == Waiting && semData[tid].needs == ToU32(needCount)
      ensures outcome == Parked ==> queue == old(queue) + [semData[tid]] && signalValue == old(signalValue)
      ensures outcome == Granted ==> queue == old(queue) == [] && signalValue == old(signalValue) - ToU32(needCount)
      ensures fresh(nodes - old(nodes))
    {
      outcome := Poll(needCount);
      if outcome == Granted {
        return;
      }
      Park(tid, needCount);
      return Parked;
    }

    /** The thread's node goes to the end of the queue: 158-181 */
    method Park(tid: int, needCount: int)
      requires Valid() && !IsParked(abs, tid) && !CanTake(abs, needCount)
      modifies this, nodes
      ensures Valid() && signalValue == old(signalValue)
      ensures abs == Enqueue(old(abs), tid, needCount)
      ensures tid in semData && semData[tid].state == Waiting && semData[tid].needs == ToU32(needCount)
      ensures queue == old(queue) + [semData[tid]]
      ensures fresh(nodes - old(nodes))
    {
      var own := NodeOf(tid);
      assert abs == old(abs) && tid in semData && semData[tid] == own;
      EnqueueNode(own, needCount);
    }

    /** try_wait: 289-297 */
    method TryWaitEnter(tid: int, needCount: int) returns (outcome: Outcome)
      requires Valid() && !IsParked(abs, tid)
      modifies this, nodes
      ensures Valid()
      ensures abs == SemaphoreSpec.TryWait(old(abs), tid, needCount)
      ensures outcome == if old(abs).queue != [] then Busy
                         else if CanTake(old(abs), needCount) then Granted else Parked
      ensures fresh(nodes - old(nodes))
    {
      if curBack != null {
        return Busy;
      }
      outcome := WaitEnter(tid, needCount);
    }

    /** The calling thread's node, created on its first wait: 158-161 */
    method NodeOf(tid: int) returns (own: SemData)
      requires Valid() && !IsParked(abs, tid)
      modifies this`semData, this`nodes
      ensures Valid()
      ensures own.tid == tid && own in nodes && own.state == Idle && tid in semData && semData[tid] == own
      ensures nodes == old(nodes) + {own} && (own in old(nodes) || fresh(own))
    {
      if tid !in semData {
        own := NewNode(tid);
      } else {
        own := semData[tid];
        assert Focus(own);
      }
    }

    method NewNode(tid: int) returns (own: SemData)
      requires Valid() && tid !in semData
      modifies this`semData, this`nodes
      ensures Valid() && fresh(own) && own.tid == tid && own.state == Idle
      ensures semData == old(semData)[tid := own] && nodes == old(nodes) + {own}
    {
      own := new SemData(tid);
      semData := semData[tid := own];
      nodes := nodes + {own};
      NodeAdded(own);
    }

    twostate lemma NodeAdded(new own: SemData)
      requires old(Valid()) && own !in old(nodes) && nodes == old(nodes) + {own}
      requires own.state == Idle && own.child == null && own.parent == null
      requires own.tid !in old(semData) && semData == old(semData)[own.tid := own]
      requires unchanged(old(nodes)) && unchanged(this`queue, this`curStart, this`curBack, this`abs, this`signalValue)
      ensures Valid()
    {
    }

    /** Appends a node to the linked queue: 165-181 */
    method EnqueueNode(own: SemData, needCount: int)
      requires Valid() && own in nodes && own.state == Idle
      requires !CanTake(abs, needCount)
      modifies this`curBack, this`curStart, this`queue, this`abs, nodes
      ensures Valid()
      ensures abs == Enqueue(old(abs), own.tid, needCount)
      ensures own.state == Waiting && own.needs == ToU32(needCount) && queue == old(queue) + [own]
    {
      assert Focus(own);
      own.needs := ToU32(needCount);
      if curBack != null {
        curBack.child := own;
      }
      if curStart == null {
        curStart := own;
      }
      own.parent := curBack;
      curBack := own;
      own.state := Waiting;
      queue := queue + [own];
      abs := Enqueue(abs, own.tid, needCount);
      Appended(own);
    }

    /** What appending `own` does to the nodes. */
    twostate predicate AppendStep(own: SemData)
      reads this, nodes
    {
      && nodes == old(nodes) && own in nodes && old(own.state) == Idle
      && own.state == Waiting && own.child == null && own.parent == old(curBack)
      && (old(curBack) in nodes ==> old(curBack).child == own)
      && (forall n {:trigger n.parent} {:trigger n.needs} {:trigger n.state} :: n in nodes && n != own ==>
            n.state == old(n.state) && n.parent == old(n.parent) && n.needs == old(n.needs))
      && (forall n {:trigger n.child} :: n in nodes && n != own && n != old(curBack) ==> n.child == old(n.child))
      && curStart == (if old(curStart) == null then own else old(curStart)) && curBack == own
      && queue == old(queue) + [own]
    }

    twostate lemma AppendedShape(own: SemData)
      requires old(Valid()) && AppendStep(own) && semData == old(semData)
      ensures Shape(nodes, semData, queue, curStart, curBack)
    {
      assert Focus(own);
    }

    twostate lemma Appended(own: SemData)
      requires old(Valid()) && AppendStep(own) && semData == old(semData) && signalValue == old(signalValue)
      requires own.needs == ToU32(own.needs) && !CanTake(old(abs), own.needs)
      requires abs == Enqueue(old(abs), own.tid, own.needs)
      ensures Valid()
    {
      AppendedShape(own);
      EnqueueKeeps(old(abs), own.tid, own.needs);
    }

    /** wait_internal from the moment the hand-off is seen: 241-275 */
    method Resume(tid: int)
      requires Valid() && tid in semData && semData[tid].state == Signaled
      modifies this`signalValue, this`curBack, this`curStart, this`queue, this`abs, nodes
      ensures old(HeadSignaled(abs) && abs.queue[0].tid == tid)
      ensures Valid()
      ensures abs == Wake(old(abs))
      ensures old(queue) != [] && old(queue)[0] == semData[tid] && semData[tid].state == Idle && queue == old(queue)[1..]
      ensures signalValue == ToU32(old(signalValue) - old(semData[tid].needs))
    {
      var own := semData[tid];
      SignaledIsHead(own);
      Dequeue(own);
      queue := queue[1..];
      abs := Wake(abs);
      Resumed(own);
    }

    /** What a parked thread does whenever it looks at its node: 187-190, 241-275 */
    method Recheck(tid: int) returns (granted: bool)
      requires Valid() && IsParked(abs, tid)
      modifies this`signalValue, this`curBack, this`curStart, this`queue, this`abs, nodes
      ensures granted <==> old(HeadSignaled(abs) && abs.queue[0].tid == tid)
      ensures Valid() && abs == if granted then Wake(old(abs)) else old(abs)
    {
      ParkedIff(tid);
      NodeAt(0);
      if semData[tid].state == Signaled {
        Resume(tid);
        return true;
      }
      return false;
    }

    /** A parked thread that was not handed the semaphore can always give up. */
    lemma MayTimeOut(i: nat)
      requires Valid() && i < |abs.queue| && !abs.queue[i].signaled
      ensures abs.queue[i].tid in semData && semData[abs.queue[i].tid].state == Waiting
    {
      NodeAt(i);
    }

    lemma SignaledIsHead(own: SemData)
      requires Valid() && own in nodes && own.state == Signaled
      ensures queue != [] && own == queue[0] && HeadSignaled(abs) && abs.queue[0] == Waiter(own.tid, own.needs, true)
      ensures own.child != null ==> own.child in nodes && own.child != own
    {
      assert own in queue by { assert Focus(own); }
    }

    /** The head takes its units, leaves the links and hands over: 245-270 */
    method Dequeue(own: SemData)
      requires own in nodes && (own.child != null ==> own.child in nodes && own.child != own)
      modifies this`signalValue, this`curBack, this`curStart, nodes
      ensures signalValue == ToU32(old(signalValue) - old(own.needs))
      ensures own.state == Idle && own.child == null && own.parent == null
      ensures curStart == old(own.child) && curBack == if old(own.child) == null then null else old(curBack)
      ensures forall n {:trigger n.child} {:trigger n.parent} {:trigger n.needs} {:trigger n.state} :: n in nodes && n != own ==>
        && n.child == old(n.child) && n.parent == old(n.parent) && n.needs == old(n.needs)
        && n.state == (if n == curStart && n.needs <= signalValue then Signaled else old(n.state))
    {
      signalValue := ToU32(signalValue - own.needs);
      if own.child == null {
        curBack := null;
      }
      curStart := own.child;
      own.child, own.parent, own.state := null, null, Idle;
      if curStart != null && curStart.needs <= signalValue {
        curStart.state := Signaled;
      }
    }

    /** What dequeuing the head `own` does to the nodes. */
    twostate predicate DequeueStep(own: SemData)
      reads this, nodes
    {
      && nodes == old(nodes) && own in nodes && old(queue) != [] && own == old(queue)[0]
      && own.state == Idle && own.child == null && own.parent == null
      && queue == old(queue)[1..]
      && curStart == old(own.child) && curBack == (if old(own.child) == null then null else old(curBack))
      && (forall n {:trigger n.child} {:trigger n.parent} {:trigger n.needs} {:trigger n.state} :: n in nodes && n != own ==>
            && n.child == old(n.child) && n.parent == old(n.parent) && n.needs == old(n.needs)
            && n.state == (if n == curStart && n.needs <= signalValue then Signaled else old(n.state)))
    }

    twostate lemma ResumedShape(own: SemData)
      requires old(Valid()) && DequeueStep(own) && semData == old(semData)
      ensures Shape(nodes, semData, queue, curStart, curBack)
    {
    }

    twostate lemma Resumed(own: SemData)
      requires old(Valid()) && DequeueStep(own) && semData == old(semData)
      requires old(HeadSignaled(abs)) && abs == Wake(old(abs)) && signalValue == abs.count
      ensures Valid()
    {
      ResumedShape(own);
      WakeKeepsWellFormed(old(abs));
    }

    /**
      The time-out branch of wait_internal: 196-223. The queue survives it if and only if the
      thread is not the last one and, when it is the head, its back link is null. Otherwise
      the list keeps starting or ending at a thread that has left.
     */
    method TimeOut(tid: int) returns (ghost i: nat)
      requires Valid() && tid in semData && semData[tid].state == Waiting
      modifies this`curStart, this`queue, this`place, this`abs, nodes
      ensures i < |old(queue)| && old(queue)[i] == semData[tid] && old(abs).queue[i].tid == tid
      ensures queue == old(queue)[..i] + old(queue)[i + 1..] && abs == SemaphoreSpec.Timeout(old(abs), i)
      ensures Valid() <==> TimeoutIsSafe(old(abs), i)
      ensures !TimeoutIsSafe(old(abs), i) ==> if i + 1 == old(|queue|) then curBack == semData[tid] else curStart == semData[tid]
    {
      var own := semData[tid];
      i := PositionOf(own);
      Unlink(own);
      queue := Without(queue, i);
      abs := SemaphoreSpec.Timeout(abs, i);
      place := i;
      assert RemoveStep(own);
      TimedOut(own);
    }

    lemma PositionOf(own: SemData) returns (i: nat)
      requires Valid() && own in nodes && own.state == Waiting
      ensures i < |queue| && queue[i] == own && abs.queue[i] == Waiter(own.tid, own.needs, false)
      ensures own.parent != null ==> own.parent in nodes && own.parent != own
      ensures own.child != null ==> own.child in nodes && own.child != own
    {
      assert Focus(own);
      assert own in queue;
      i :| i < |queue| && queue[i] == own;
    }

    /** Takes a node that gave up out of the list: 196-223 */
    method Unlink(own: SemData)
      requires own in nodes && own != own.child && own != own.parent
      requires own.child != null ==> own.child in nodes
      requires own.parent != null ==> own.parent in nodes
      modifies this`curStart, nodes
      ensures own.state == Idle && own.child == null && own.parent == null
      ensures curStart == if old(own.parent) == null then old(own.child) else old(curStart)
      ensures forall n {:trigger n.child} {:trigger n.parent} :: n in nodes && n != own ==>
        && n.child == (if n == old(own.parent) then old(own.child) else old(n.child))
        && n.parent == (if n == old(own.child) then old(own.parent) else old(n.parent))
      ensures forall n {:trigger n.needs} {:trigger n.state} :: n in nodes && n != own ==>
        && n.needs == old(n.needs)
        && n.state == (if old(own.parent) == null && n == curStart && n.needs <= signalValue then Signaled else old(n.state))
    {
      if own.parent != null {
        own.parent.child := own.child;
      }
      if own.child != null {
        own.child.parent := own.parent;
      }
      if own.parent == null {
        curStart := own.child;
        if curStart != null && curStart.needs <= signalValue {
          curStart.state := Signaled;
        }
      }
      own.child, own.parent, own.state := null, null, Idle;
    }

    /** What the time-out of `own`, at position `place`, does to the nodes. */
    twostate predicate RemoveStep(own: SemData)
      reads this, nodes
    {
      && nodes == old(nodes) && own in nodes && old(own.state) == Waiting
      && place < old(|queue|) && old(queue)[place] == own && queue == Without(old(queue), place)
      && own.state == Idle && own.child == null && own.parent == null
      && curBack == old(curBack) && curStart == (if old(own.parent) == null then old(own.child) else old(curStart))
      && (forall n {:trigger n.child} {:trigger n.parent} :: n in nodes && n != own ==>
            && n.child == (if n == old(own.parent) then old(own.child) else old(n.child))
            && n.parent == (if n == old(own.child) then old(own.parent) else old(n.parent)))
      && (forall n {:trigger n.needs} {:trigger n.state} :: n in nodes && n != own ==>
            && n.needs == old(n.needs)
            && n.state == (if old(own.parent) == null && n == curStart && n.needs <= signalValue then Signaled else old(n.state)))
    }

    twostate lemma RemovedLists(own: SemData)
      requires old(Valid()) && RemoveStep(own) && semData == old(semData)
      requires TimeoutIsSafe(old(abs), place)
      ensures Owned(nodes, semData) && Lists(nodes, queue) && Unlinked(nodes)
    {
      DistinctWithout(old(queue), place);
    }

    twostate lemma RemovedChildren(own: SemData)
      requires old(Linked(queue, curStart, curBack) && Lists(nodes, queue)) && RemoveStep(own)
      requires place + 1 < old(|queue|) && (place == 0 ==> old(own.parent) == null)
      ensures forall k :: 0 <= k < |queue| ==> queue[k].child == if k + 1 < |queue| then queue[k + 1] else null
    {
      ghost var q, p := old(queue), place;
      forall i | 0 <= i < |q| && i != p
        ensures old(q[i].child) == if i + 1 < |q| then q[i + 1] else null
        ensures q[i].child == if i + 1 == p then q[p + 1] else old(q[i].child)
      {
        assert q[i] in nodes && q[i] != q[p];
        assert old(q[p].parent) == if p == 0 then null else q[p - 1];
        assert p > 0 && i != p - 1 ==> q[i] != q[p - 1];
      }
      forall k | 0 <= k < |queue| ensures queue[k].child == if k + 1 < |queue| then queue[k + 1] else null {
        RemovedChildAt(Removal(q, p, k));
      }
    }

    twostate lemma RemovedParents(own: SemData)
      requires old(Linked(queue, curStart, curBack) && Lists(nodes, queue)) && RemoveStep(own)
      requires place + 1 < old(|queue|) && (place == 0 ==> old(own.parent) == null)
      ensures forall k :: 1 <= k < |queue| ==> queue[k].parent == queue[k - 1]
    {
      ghost var q, p := old(queue), place;
      forall i | 1 <= i < |q| && i != p
        ensures old(q[i].parent) == q[i - 1]
        ensures i != p + 1 ==> q[i].parent == old(q[i].parent)
      {
        assert q[i] in nodes && q[i] != q[p];
        assert old(q[p].child) == q[p + 1];
        assert i != p + 1 ==> q[i] != q[p + 1];
      }
      assert p > 0 ==> q[p + 1].parent == q[p - 1] by {
        assert q[p + 1] in nodes && q[p + 1] != q[p];
      }
      forall k | 1 <= k < |queue| ensures queue[k].parent == queue[k - 1] {
        RemovedParentAt(Removal(q, p, k));
      }
    }

    twostate lemma RemovedLinks(own: SemData)
      requires old(Linked(queue, curStart, curBack) && Lists(nodes, queue)) && RemoveStep(own)
      requires place + 1 < old(|queue|) && (place == 0 ==> old(own.parent) == null)
      ensures Linked(queue, curStart, curBack)
    {
      RemovedChildren(own);
      RemovedParents(own);
    }

    twostate lemma RemovedAgrees(own: SemData)
      requires old(Valid()) && RemoveStep(own) && signalValue == old(signalValue)
      requires abs == SemaphoreSpec.Timeout(old(abs), place) && TimeoutIsSafe(old(abs), place)
      ensures Agrees(abs, signalValue, queue)
    {
      assert old(queue)[place].state == Idle;
    }

    twostate lemma TimedOutSafely(own: SemData)
      requires old(Valid()) && RemoveStep(own) && semData == old(semData) && signalValue == old(signalValue)
      requires abs == SemaphoreSpec.Timeout(old(abs), place) && TimeoutIsSafe(old(abs), place)
      ensures Valid()
    {
      RemovedLists(own);
      RemovedLinks(own);
      RemovedAgrees(own);
      TimeoutKeepsWellFormed(old(abs), place);
    }

    /** The list keeps beginning or ending at a node that is idle. */
    twostate lemma TimedOutUnsafely(own: SemData)
      requires old(Valid()) && RemoveStep(own) && !TimeoutIsSafe(old(abs), place)
      ensures !Valid()
      ensures if place + 1 == old(|queue|) then curBack == own else curStart == own
    {
      DistinctWithout(old(queue), place);
    }

    twostate lemma TimedOut(own: SemData)
      requires old(Valid()) && RemoveStep(own) && semData == old(semData) && signalValue == old(signalValue)
      requires abs == SemaphoreSpec.Timeout(old(abs), place)
      ensures Valid() <==> TimeoutIsSafe(old(abs), place)
      ensures !TimeoutIsSafe(old(abs), place) ==> if place + 1 == old(|queue|) then curBack == own else curStart == own
    {
      if TimeoutIsSafe(old(abs), place) {
        TimedOutSafely(own);
      } else {
        TimedOutUnsafely(own);
      }
    }
  }

  lemma LoneWaiter()
    ensures ToU32(1) == 1 && Wait(Sem(1, [], true), 7, 2) == Sem(1, [Waiter(7, 2, false)], true)
    ensures !CanTake(Sem(1, [], true), 2)
  {
  }

  /** A semaphore of one unit whose only waiter, asking for two, is parked. */
  method LoneWait() returns (sem: FifoSemaphore)
    ensures fresh(sem) && fresh(sem.nodes) && sem.Valid() && sem.abs == Sem(1, [Waiter(7, 2, false)], true)
    ensures 7 in sem.semData && sem.semData[7].state == Waiting
  {
    LoneWaiter();
    sem := new FifoSemaphore(1);
    var outcome := sem.WaitEnter(7, 2);
  }

  /**
    What an unsafe time-out leads to: the only waiter gives up, and from then on a poll for one
    unit is refused although one unit is there.
   */
  method PollAfterLoneTimeOut() returns (sem: FifoSemaphore, ok: bool)
    ensures sem.signalValue == 1 && sem.queue == [] && !ok
  {
    sem := LoneWait();
    var i := sem.TimeOut(7);
    ok := sem.PollInternal(1);
  }
}
