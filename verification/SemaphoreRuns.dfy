/**
  Any number of threads using one FIFO semaphore. Each step is one critical section of
  core/kernel/semaphore_fifo.cpp, or the delivery of one `notify_one` that is sent after the
  lock was dropped. Time-outs are those the linked queue survives.
 */
module SemaphoreRuns {
  import opened Words
  import opened SemaphoreSpec

  /** A request as it was made: by whom and for how much. */
  datatype Arrival = Arrival(tid: int, need: int)

  /** A granted request: its number in order of arrival, who was granted it and the units that took. */
  datatype Grant = Grant(request: nat, tid: int, needs: nat)

  datatype Action =
    | DoSignal(n: int)
    | DoPoll(tid: int, need: int)
    | DoWait(tid: int, need: int)
    | DoTryWait(tid: int, need: int)
    | DoNotify(tid: int)
    | DoRecheck(tid: int)
    | DoTimeout(tid: int)

  /**
    `arrivals` lists every request in the order they were made, and `requests` numbers those that
    are parked, in the order they parked. `owed` holds the notifications decided on but not yet sent, `notified` the
    parked threads whose notification has arrived. `signals` sums the signal counts as the
    integers they are, `units` as the `uint32_t` they become; `wrapped` remembers whether the
    counter ever wrapped.
   */
  datatype Sys = Sys(
    sem: Sem,
    requests: seq<nat>,
    arrivals: seq<Arrival>,
    grants: seq<Grant>,
    owed: multiset<int>,
    notified: set<int>,
    signals: int,
    units: nat,
    wrapped: bool)

  function Init(initCount: int): Sys {
    Sys(Sem(ToU32(initCount), [], true), [], [], [], multiset{}, {}, 0, 0, false)
  }

  function Position(q: seq<Waiter>, tid: int): (i: nat)
    requires exists i :: 0 <= i < |q| && q[i].tid == tid
    ensures i < |q| && q[i].tid == tid
  {
    if q[0].tid == tid then 0 else 1 + Position(q[1..], tid)
  }

  predicate Enabled(s: Sys, a: Action) {
    match a
    case DoSignal(_) => true
    case DoPoll(_, _) => true
    case DoWait(tid, _) => !IsParked(s.sem, tid)
    case DoTryWait(tid, _) => !IsParked(s.sem, tid)
    case DoNotify(tid) => tid in s.owed
    case DoRecheck(tid) => IsParked(s.sem, tid)
    case DoTimeout(tid) =>
      && IsParked(s.sem, tid)
      && TimeoutIsSafe(s.sem, Position(s.sem.queue, tid))
      && !s.sem.queue[Position(s.sem.queue, tid)].signaled
  }

  /** The notification a section owes when it leaves a signaled head behind. */
  function Owe(s: Sys, sem: Sem): multiset<int> {
    if sem.queue != [] && sem.queue[0].needs <= sem.count then s.owed + multiset{sem.queue[0].tid} else s.owed
  }

  function Request(s: Sys, sem: Sem, tid: int, need: int, parks: bool): Sys {
    var t := s.(sem := sem, arrivals := s.arrivals + [Arrival(tid, need)]);
    if CanTake(s.sem, need) then t.(grants := s.grants + [Grant(|s.arrivals|, tid, ToU32(need))])
    else if parks then t.(requests := s.requests + [|s.arrivals|])
    else t
  }

  function Apply(s: Sys, a: Action): Sys
    requires Enabled(s, a)
  {
    match a
    case DoSignal(n) =>
      var sem := Signal(s.sem, n);
      s.(sem := sem, owed := Owe(s, sem), signals := s.signals + n,
         units := s.units + ToU32(n), wrapped := s.wrapped || U32 <= s.sem.count + ToU32(n))
    case DoPoll(tid, need) => Request(s, Poll(s.sem, need), tid, need, false)
    case DoWait(tid, need) => Request(s, Wait(s.sem, tid, need), tid, need, true)
    case DoTryWait(tid, need) => Request(s, TryWait(s.sem, tid, need), tid, need, s.sem.queue == [])
    case DoNotify(tid) =>
      s.(owed := s.owed - multiset{tid},
         notified := if IsParked(s.sem, tid) then s.notified + {tid} else s.notified)
    case DoRecheck(tid) =>
      if HeadSignaled(s.sem) && s.sem.queue[0].tid == tid && s.requests != [] then
        var sem := Wake(s.sem);
        s.(sem := sem, requests := s.requests[1..], owed := Owe(s, sem), notified := s.notified - {tid},
           grants := s.grants + [Grant(s.requests[0], tid, s.sem.queue[0].needs)])
      else
        s.(notified := s.notified - {tid})
    case DoTimeout(tid) =>
      var i := Position(s.sem.queue, tid);
      var sem := Timeout(s.sem, i);
      s.(sem := sem, requests := if i < |s.requests| then Without(s.requests, i) else s.requests,
         owed := if i == 0 then Owe(s, sem) else s.owed, notified := s.notified - {tid})
  }

  ghost predicate Runs(s: Sys, acts: seq<Action>, t: Sys)
    decreases |acts|
  {
    if acts == [] then s == t else Enabled(s, acts[0]) && Runs(Apply(s, acts[0]), acts[1..], t)
  }

  // ---- invariants ----

  function Granted(gs: seq<Grant>): nat {
    if gs == [] then 0 else Granted(gs[..|gs| - 1]) + gs[|gs| - 1].needs
  }

  predicate Numbered(s: Sys) {
    && |s.requests| == |s.sem.queue|
    && (forall i :: 0 <= i < |s.requests| ==> s.requests[i] < |s.arrivals|)
    && (forall i, j :: 0 <= i < j < |s.requests| ==> s.requests[i] < s.requests[j])
  }

  /** Grants follow the order of arrival, and nobody still parked arrived before a grant. */
  predicate Fair(s: Sys) {
    && (forall i :: 0 <= i < |s.grants| ==> s.grants[i].request < |s.arrivals|)
    && (forall i, j :: 0 <= i < j < |s.grants| ==> s.grants[i].request < s.grants[j].request)
    && (forall i, k :: 0 <= i < |s.grants| && 0 <= k < |s.requests| ==> s.grants[i].request < s.requests[k])
  }

  /** Each parked waiter is the thread that made its request, waiting for what it asked for, and each grant went there. */
  predicate Named(s: Sys) {
    && |s.requests| == |s.sem.queue|
    && (forall i :: 0 <= i < |s.requests| ==>
          && s.requests[i] < |s.arrivals|
          && s.sem.queue[i].tid == s.arrivals[s.requests[i]].tid
          && s.sem.queue[i].needs == ToU32(s.arrivals[s.requests[i]].need))
    && (forall i :: 0 <= i < |s.grants| ==> Answered(s.arrivals, s.grants[i]))
  }

  predicate Answered(arrivals: seq<Arrival>, g: Grant) {
    g.request < |arrivals| && g.tid == arrivals[g.request].tid && g.needs == ToU32(arrivals[g.request].need)
  }

  /** A signaled head has its notification sent or on the way. */
  predicate WakeUpOnTheWay(s: Sys) {
    HeadSignaled(s.sem) ==> s.sem.queue[0].tid in s.owed || s.sem.queue[0].tid in s.notified
  }

  predicate Conserved(s: Sys, initCount: int) {
    && ToU32(initCount + s.signals - Granted(s.grants)) == s.sem.count
    && (!s.wrapped ==>
          && SignaledImpliesFits(s.sem)
          && ToU32(initCount) + s.units == s.sem.count + Granted(s.grants))
  }

  predicate Inv(s: Sys, initCount: int) {
    && WellFormed(s.sem) && DistinctTids(s.sem.queue)
    && Numbered(s) && Named(s) && Fair(s) && WakeUpOnTheWay(s) && Conserved(s, initCount)
  }

  lemma InitInv(initCount: int)
    ensures Inv(Init(initCount), initCount)
  {
  }

  lemma GrantedOne(gs: seq<Grant>, g: Grant)
    ensures Granted(gs + [g]) == Granted(gs) + g.needs
  {
    assert (gs + [g])[..|gs|] == gs;
  }

  lemma Subtracted(total: int, granted: int, count: nat, needs: nat)
    requires ToU32(total - granted) == count
    ensures ToU32(total - (granted + needs)) == ToU32(count - needs)
  {
    ShiftU32(total - granted, 0 - needs);
    assert total - granted + (0 - needs) == total - (granted + needs);
  }

  lemma StepWellFormed(s: Sys, a: Action)
    requires WellFormed(s.sem) && Enabled(s, a)
    ensures WellFormed(Apply(s, a).sem)
  {
    match a
    case DoSignal(n) => SignalKeeps(s.sem, n);
    case DoPoll(_, need) =>
    case DoWait(tid, need) => if !CanTake(s.sem, need) { EnqueueKeeps(s.sem, tid, need); }
    case DoTryWait(tid, need) => if !CanTake(s.sem, need) { EnqueueKeeps(s.sem, tid, need); }
    case DoNotify(tid) =>
    case DoRecheck(tid) => if HeadSignaled(s.sem) { WakeKeepsWellFormed(s.sem); }
    case DoTimeout(tid) => TimeoutKeepsWellFormed(s.sem, Position(s.sem.queue, tid));
  }

  lemma DistinctNotify(c: nat, q: seq<Waiter>)
    requires DistinctTids(q)
    ensures DistinctTids(NotifyHead(c, q))
  {
  }

  lemma DistinctTimeout(s: Sem, i: nat)
    requires DistinctTids(s.queue) && i < |s.queue|
    ensures DistinctTids(Timeout(s, i).queue)
  {
    assert DistinctTids(Without(s.queue, i));
    DistinctNotify(s.count, Without(s.queue, i));
  }

  lemma DistinctEnqueue(s: Sem, tid: int, need: int)
    requires DistinctTids(s.queue) && !IsParked(s, tid)
    ensures DistinctTids(Enqueue(s, tid, need).queue)
  {
  }

  lemma StepDistinct(s: Sys, a: Action)
    requires DistinctTids(s.sem.queue) && Enabled(s, a)
    ensures DistinctTids(Apply(s, a).sem.queue)
  {
    match a
    case DoSignal(n) => DistinctNotify(ToU32(s.sem.count + n), s.sem.queue);
    case DoPoll(_, need) =>
    case DoWait(tid, need) => DistinctEnqueue(s.sem, tid, need);
    case DoTryWait(tid, need) => DistinctEnqueue(s.sem, tid, need);
    case DoNotify(tid) =>
    case DoRecheck(tid) =>
      assert DistinctTids(s.sem.queue[1..]);
      if HeadSignaled(s.sem) {
        DistinctNotify(Wake(s.sem).count, s.sem.queue[1..]);
      }
    case DoTimeout(tid) => DistinctTimeout(s.sem, Position(s.sem.queue, tid));
  }

  /** What a request that was not granted before adds to the order of arrival. */
  lemma RequestFair(s: Sys, sem: Sem, tid: int, need: int, parks: bool)
    requires Numbered(s) && Fair(s)
    requires CanTake(s.sem, need) ==> sem.queue == []
    requires !CanTake(s.sem, need) ==> |sem.queue| == |s.sem.queue| + if parks then 1 else 0
    ensures Numbered(Request(s, sem, tid, need, parks)) && Fair(Request(s, sem, tid, need, parks))
  {
  }

  lemma RecheckNumbered(s: Sys, tid: int)
    requires Numbered(s) && Enabled(s, DoRecheck(tid))
    ensures Numbered(Apply(s, DoRecheck(tid)))
  {
  }

  lemma RecheckFair(s: Sys, tid: int)
    requires Numbered(s) && Fair(s) && Enabled(s, DoRecheck(tid))
    ensures Fair(Apply(s, DoRecheck(tid)))
  {
  }

  lemma IncreasingWithout(q: seq<nat>, i: nat)
    requires i < |q| && forall j, k :: 0 <= j < k < |q| ==> q[j] < q[k]
    ensures forall j, k :: 0 <= j < k < |q| - 1 ==> Without(q, i)[j] < Without(q, i)[k]
    ensures forall r :: r in Without(q, i) ==> r in q
  {
  }

  lemma TimeoutFair(s: Sys, tid: int)
    requires Numbered(s) && Fair(s) && Enabled(s, DoTimeout(tid))
    ensures Numbered(Apply(s, DoTimeout(tid))) && Fair(Apply(s, DoTimeout(tid)))
  {
    var i, t := Position(s.sem.queue, tid), Apply(s, DoTimeout(tid));
    IncreasingWithout(s.requests, i);
    forall k | 0 <= k < |t.requests| ensures t.requests[k] in s.requests {
      assert t.requests[k] in t.requests;
    }
  }

  lemma StepFair(s: Sys, a: Action)
    requires Numbered(s) && Fair(s) && Enabled(s, a)
    ensures Numbered(Apply(s, a)) && Fair(Apply(s, a))
  {
    match a
    case DoSignal(n) =>
    case DoPoll(tid, need) => RequestFair(s, Poll(s.sem, need), tid, need, false);
    case DoWait(tid, need) => RequestFair(s, Wait(s.sem, tid, need), tid, need, true);
    case DoTryWait(tid, need) => RequestFair(s, TryWait(s.sem, tid, need), tid, need, s.sem.queue == []);
    case DoNotify(tid) =>
    case DoRecheck(tid) =>
      RecheckNumbered(s, tid);
      RecheckFair(s, tid);
    case DoTimeout(tid) => TimeoutFair(s, tid);
  }

  /** A request that is granted, refused or parked last leaves the names right. */
  lemma RequestNamed(s: Sys, sem: Sem, tid: int, need: int, parks: bool)
    requires Named(s)
    requires CanTake(s.sem, need) ==> sem.queue == s.sem.queue
    requires !CanTake(s.sem, need) ==> sem.queue == s.sem.queue + if parks then [Waiter(tid, ToU32(need), false)] else []
    ensures Named(Request(s, sem, tid, need, parks))
  {
  }

  /** Notifying the head changes no name. */
  lemma SameNames(s: Sys, t: Sys)
    requires Named(s) && t.requests == s.requests && t.arrivals == s.arrivals && t.grants == s.grants
    requires |t.sem.queue| == |s.sem.queue|
    requires forall i :: 0 <= i < |s.sem.queue| ==> t.sem.queue[i].tid == s.sem.queue[i].tid && t.sem.queue[i].needs == s.sem.queue[i].needs
    ensures Named(t)
  {
  }

  lemma RecheckNamed(s: Sys, tid: int)
    requires Named(s) && Enabled(s, DoRecheck(tid))
    ensures Named(Apply(s, DoRecheck(tid)))
  {
  }

  lemma TimeoutNamed(s: Sys, tid: int)
    requires Named(s) && Enabled(s, DoTimeout(tid))
    ensures Named(Apply(s, DoTimeout(tid)))
  {
    NamedWithout(s, Apply(s, DoTimeout(tid)), Position(s.sem.queue, tid));
  }

  lemma NamedWithout(s: Sys, t: Sys, i: nat)
    requires Named(s) && i < |s.sem.queue| && t.arrivals == s.arrivals && t.grants == s.grants
    requires t.requests == s.requests[..i] + s.requests[i + 1..] && |t.sem.queue| == |t.requests|
    requires forall k :: 0 <= k < |t.sem.queue| ==>
      var w := s.sem.queue[if k < i then k else k + 1];
      t.sem.queue[k].tid == w.tid && t.sem.queue[k].needs == w.needs
    ensures Named(t)
  {
    forall k | 0 <= k < |t.requests|
      ensures t.requests[k] < |t.arrivals|
      ensures t.sem.queue[k].tid == t.arrivals[t.requests[k]].tid && t.sem.queue[k].needs == ToU32(t.arrivals[t.requests[k]].need)
    {
      var j := if k < i then k else k + 1;
      assert t.requests[k] == s.requests[j];
    }
  }

  lemma StepNamed(s: Sys, a: Action)
    requires Named(s) && Enabled(s, a)
    ensures Named(Apply(s, a))
  {
    match a
    case DoSignal(n) => SameNames(s, Apply(s, a));
    case DoPoll(tid, need) => RequestNamed(s, Poll(s.sem, need), tid, need, false);
    case DoWait(tid, need) => RequestNamed(s, Wait(s.sem, tid, need), tid, need, true);
    case DoTryWait(tid, need) => RequestNamed(s, TryWait(s.sem, tid, need), tid, need, s.sem.queue == []);
    case DoNotify(tid) => SameNames(s, Apply(s, a));
    case DoRecheck(tid) => RecheckNamed(s, tid);
    case DoTimeout(tid) => TimeoutNamed(s, tid);
  }

  /** A new head is only signaled when it fits, and then a notification is owed. */
  lemma NewHeadWakeUp(s: Sys, sem: Sem, rest: seq<Waiter>)
    requires sem.queue == NotifyHead(sem.count, rest) && (rest != [] ==> !rest[0].signaled)
    ensures HeadSignaled(sem) ==> sem.queue[0].tid in Owe(s, sem)
  {
  }

  lemma RecheckWakeUp(s: Sys, tid: int)
    requires WellFormed(s.sem) && Numbered(s) && WakeUpOnTheWay(s) && Enabled(s, DoRecheck(tid))
    ensures WakeUpOnTheWay(Apply(s, DoRecheck(tid)))
  {
    if HeadSignaled(s.sem) && s.sem.queue[0].tid == tid {
      NewHeadWakeUp(s, Wake(s.sem), s.sem.queue[1..]);
    }
  }

  lemma TimeoutWakeUp(s: Sys, tid: int)
    requires WellFormed(s.sem) && WakeUpOnTheWay(s) && Enabled(s, DoTimeout(tid))
    ensures WakeUpOnTheWay(Apply(s, DoTimeout(tid)))
  {
    var i := Position(s.sem.queue, tid);
    var rest := Without(s.sem.queue, i);
    if i == 0 {
      assert rest != [] ==> rest[0] == s.sem.queue[1];
      NewHeadWakeUp(s, Timeout(s.sem, i), rest);
    } else {
      assert rest[0] == s.sem.queue[0] && s.sem.queue[0].tid != tid;
    }
  }

  lemma StepWakeUp(s: Sys, a: Action)
    requires WellFormed(s.sem) && Numbered(s) && WakeUpOnTheWay(s) && Enabled(s, a)
    ensures WakeUpOnTheWay(Apply(s, a))
  {
    match a
    case DoSignal(n) =>
    case DoPoll(_, need) =>
    case DoWait(tid, need) =>
    case DoTryWait(tid, need) =>
    case DoNotify(tid) =>
    case DoRecheck(tid) => RecheckWakeUp(s, tid);
    case DoTimeout(tid) => TimeoutWakeUp(s, tid);
  }

  /** A grant takes from the count what it adds to the grants. */
  lemma GrantConserved(s: Sys, t: Sys, g: Grant, initCount: int)
    requires Conserved(s, initCount) && t.grants == s.grants + [g]
    requires t.signals == s.signals && t.units == s.units && t.wrapped == s.wrapped
    requires t.sem.count == ToU32(s.sem.count - g.needs)
    requires !s.wrapped ==> g.needs <= s.sem.count < U32 && SignaledImpliesFits(t.sem)
    ensures Conserved(t, initCount)
  {
    GrantedOne(s.grants, g);
    Subtracted(initCount + s.signals, Granted(s.grants), s.sem.count, g.needs);
  }

  lemma RequestConserved(s: Sys, sem: Sem, tid: int, need: int, parks: bool, initCount: int)
    requires s.sem.count < U32 && Conserved(s, initCount)
    requires CanTake(s.sem, need) ==> sem == Take(s.sem, need)
    requires !CanTake(s.sem, need) ==> sem.count == s.sem.count
    requires !CanTake(s.sem, need) && HeadSignaled(sem) ==> HeadSignaled(s.sem) && sem.queue[0] == s.sem.queue[0]
    ensures Conserved(Request(s, sem, tid, need, parks), initCount)
  {
    if CanTake(s.sem, need) {
      GrantConserved(s, Request(s, sem, tid, need, parks), Grant(|s.arrivals|, tid, ToU32(need)), initCount);
    }
  }

  lemma RecheckConserved(s: Sys, tid: int, initCount: int)
    requires WellFormed(s.sem) && |s.requests| == |s.sem.queue| && Conserved(s, initCount) && Enabled(s, DoRecheck(tid))
    ensures Conserved(Apply(s, DoRecheck(tid)), initCount)
  {
    if HeadSignaled(s.sem) && s.sem.queue[0].tid == tid {
      if !s.wrapped {
        WakeKeeps(s.sem);
      }
      GrantConserved(s, Apply(s, DoRecheck(tid)), Grant(s.requests[0], tid, s.sem.queue[0].needs), initCount);
    }
  }

  lemma SignalConserved(s: Sys, n: int, initCount: int)
    requires WellFormed(s.sem) && Conserved(s, initCount)
    ensures Conserved(Apply(s, DoSignal(n)), initCount)
  {
    ShiftU32(initCount + s.signals - Granted(s.grants), n);
    ShiftU32(n, s.sem.count);
  }

  lemma StepConserved(s: Sys, a: Action, initCount: int)
    requires WellFormed(s.sem) && Numbered(s) && Conserved(s, initCount) && Enabled(s, a)
    ensures Conserved(Apply(s, a), initCount)
  {
    match a
    case DoSignal(n) => SignalConserved(s, n, initCount);
    case DoPoll(tid, need) => RequestConserved(s, Poll(s.sem, need), tid, need, false, initCount);
    case DoWait(tid, need) => RequestConserved(s, Wait(s.sem, tid, need), tid, need, true, initCount);
    case DoTryWait(tid, need) => RequestConserved(s, TryWait(s.sem, tid, need), tid, need, s.sem.queue == [], initCount);
    case DoNotify(tid) =>
    case DoRecheck(tid) => RecheckConserved(s, tid, initCount);
    case DoTimeout(tid) => TimeoutConserved(s, tid, initCount);
  }

  lemma TimeoutKeepsFit(s: Sem, i: nat)
    requires WellFormed(s) && SignaledImpliesFits(s) && i < |s.queue|
    ensures SignaledImpliesFits(Timeout(s, i))
  {
    assert i > 0 ==> Without(s.queue, i)[0] == s.queue[0];
  }

  lemma TimeoutConserved(s: Sys, tid: int, initCount: int)
    requires WellFormed(s.sem) && Conserved(s, initCount) && Enabled(s, DoTimeout(tid))
    ensures Conserved(Apply(s, DoTimeout(tid)), initCount)
  {
    if !s.wrapped {
      TimeoutKeepsFit(s.sem, Position(s.sem.queue, tid));
    }
    SameLedger(s, Apply(s, DoTimeout(tid)), initCount);
  }

  lemma SameLedger(s: Sys, t: Sys, initCount: int)
    requires Conserved(s, initCount) && t.grants == s.grants && t.sem.count == s.sem.count
    requires t.signals == s.signals && t.units == s.units && t.wrapped == s.wrapped
    requires !s.wrapped ==> SignaledImpliesFits(t.sem)
    ensures Conserved(t, initCount)
  {
  }

  lemma StepInv(s: Sys, a: Action, initCount: int)
    requires Inv(s, initCount) && Enabled(s, a)
    ensures Inv(Apply(s, a), initCount)
  {
    StepWellFormed(s, a);
    StepDistinct(s, a);
    StepFair(s, a);
    StepNamed(s, a);
    StepWakeUp(s, a);
    StepConserved(s, a, initCount);
  }

  lemma {:induction false} RunInv(s: Sys, acts: seq<Action>, t: Sys, initCount: int)
    requires Inv(s, initCount) && Runs(s, acts, t)
    ensures Inv(t, initCount)
    decreases |acts|
  {
    if acts != [] {
      StepInv(s, acts[0], initCount);
      RunInv(Apply(s, acts[0]), acts[1..], t, initCount);
    }
  }

  // ---- theorems ----

  /** Units are conserved over every run, modulo the width of the counter. */
  lemma UnitsAreConserved(initCount: int, acts: seq<Action>, t: Sys)
    requires Runs(Init(initCount), acts, t)
    ensures ToU32(t.sem.count + Granted(t.grants)) == ToU32(initCount + t.signals)
    ensures !t.wrapped ==> t.sem.count + Granted(t.grants) == ToU32(initCount) + t.units
  {
    InitInv(initCount);
    RunInv(Init(initCount), acts, t, initCount);
    ShiftU32(initCount + t.signals - Granted(t.grants), Granted(t.grants));
  }

  /**
    Over every run grants follow the order of arrival and overtake nobody who is still parked; the
    numbers are those of the requests as they were made: whoever is parked or was granted something
    made the request of that number, and for that many units. The requests parked are those of the
    queue, in the order they were made.
   */
  lemma GrantsFollowArrival(initCount: int, acts: seq<Action>, t: Sys)
    requires Runs(Init(initCount), acts, t)
    ensures t.arrivals == Arrivals(acts)
    ensures forall i :: 0 <= i < |t.grants| ==>
      && t.grants[i].request < |t.arrivals|
      && t.grants[i].tid == t.arrivals[t.grants[i].request].tid
      && t.grants[i].needs == ToU32(t.arrivals[t.grants[i].request].need)
    ensures forall i :: 0 <= i < |t.sem.queue| == |t.requests| ==>
      && t.requests[i] < |t.arrivals|
      && t.sem.queue[i].tid == t.arrivals[t.requests[i]].tid
      && t.sem.queue[i].needs == ToU32(t.arrivals[t.requests[i]].need)
    ensures forall i, j :: 0 <= i < j < |t.requests| ==> t.requests[i] < t.requests[j]
    ensures forall i, j :: 0 <= i < j < |t.grants| ==> t.grants[i].request < t.grants[j].request
    ensures forall i, k :: 0 <= i < |t.grants| && 0 <= k < |t.requests| ==> t.grants[i].request < t.requests[k]
    ensures |t.requests| == |t.sem.queue|
  {
    InitInv(initCount);
    RunInv(Init(initCount), acts, t, initCount);
    ArrivalsAre(Init(initCount), acts, t);
    GrantsAreAnswers(t);
  }

  lemma GrantsAreAnswers(t: Sys)
    requires Named(t)
    ensures forall i :: 0 <= i < |t.grants| ==>
      && t.grants[i].request < |t.arrivals|
      && t.grants[i].tid == t.arrivals[t.grants[i].request].tid
      && t.grants[i].needs == ToU32(t.arrivals[t.grants[i].request].need)
  {
  }

  /** The requests that a list of steps makes, in order. */
  function Arrivals(acts: seq<Action>): seq<Arrival> {
    if acts == [] then [] else Arrived(acts[0]) + Arrivals(acts[1..])
  }

  function Arrived(a: Action): seq<Arrival> {
    match a
    case DoPoll(tid, need) => [Arrival(tid, need)]
    case DoWait(tid, need) => [Arrival(tid, need)]
    case DoTryWait(tid, need) => [Arrival(tid, need)]
    case _ => []
  }

  lemma ArrivedIs(s: Sys, a: Action)
    requires Enabled(s, a)
    ensures Apply(s, a).arrivals == s.arrivals + Arrived(a)
  {
  }

  lemma {:induction false} ArrivalsAre(s: Sys, acts: seq<Action>, t: Sys)
    requires Runs(s, acts, t)
    ensures t.arrivals == s.arrivals + Arrivals(acts)
    decreases |acts|
  {
    if acts != [] {
      var u := Apply(s, acts[0]);
      ArrivedIs(s, acts[0]);
      ArrivalsAre(u, acts[1..], t);
      assert t.arrivals == (s.arrivals + Arrived(acts[0])) + Arrivals(acts[1..]);
    }
  }

  /**
    What becomes of a request, whatever came before it. With nobody queued and enough units it is
    granted at once and takes them. Otherwise a poll, or a try-wait with somebody queued, changes
    nothing; any other parks, and goes behind everybody who is there.
   */
  lemma RequestsAreServedOrParked(s: Sys, a: Action)
    requires Enabled(s, a) && (a.DoPoll? || a.DoWait? || a.DoTryWait?)
    ensures var t := Apply(s, a);
      if s.sem.queue == [] && ToU32(a.need) <= s.sem.count then
        && t.sem == s.sem.(count := s.sem.count - ToU32(a.need)) && t.requests == s.requests
        && t.grants == s.grants + [Grant(|s.arrivals|, a.tid, ToU32(a.need))]
      else
        && t.sem.count == s.sem.count && t.grants == s.grants
        && (if a.DoPoll? || (a.DoTryWait? && s.sem.queue != []) then t.sem.queue == s.sem.queue && t.requests == s.requests
            else t.sem.queue == s.sem.queue + [Waiter(a.tid, ToU32(a.need), false)] && t.requests == s.requests + [|s.arrivals|])
  {
  }

  /** A time-out takes out one thread, its own, and leaves the others and the count as they were. */
  lemma TimeoutsTakeOutTheirOwn(s: Sys, tid: int, i: nat)
    requires DistinctTids(s.sem.queue) && Enabled(s, DoTimeout(tid)) && i < |s.sem.queue| && s.sem.queue[i].tid == tid
    ensures var t := Apply(s, DoTimeout(tid));
      && t.sem.count == s.sem.count && t.grants == s.grants && |t.sem.queue| == |s.sem.queue| - 1
      && forall k :: 0 <= k < |t.sem.queue| ==>
           var w := s.sem.queue[if k < i then k else k + 1];
           t.sem.queue[k].tid == w.tid && t.sem.queue[k].needs == w.needs
  {
    assert Position(s.sem.queue, tid) == i;
    assert Without(s.sem.queue, i) == s.sem.queue[..i] + s.sem.queue[i + 1..];
  }

  /**
    No wake-up is lost: in every reachable state a head whose need fits is signaled and its
    notification has arrived or is still to be sent; a thread behind it never is signaled.
    While no signal has wrapped, only a head that fits is signaled.
   */
  lemma NoWakeUpIsLost(initCount: int, acts: seq<Action>, t: Sys)
    requires Runs(Init(initCount), acts, t) && t.sem.queue != []
    ensures t.sem.queue[0].needs <= t.sem.count ==>
              && HeadSignaled(t.sem)
              && Enabled(t, DoRecheck(t.sem.queue[0].tid))
              && Apply(t, DoRecheck(t.sem.queue[0].tid)).sem == Wake(t.sem)
              && (t.sem.queue[0].tid in t.owed || t.sem.queue[0].tid in t.notified)
    ensures !t.wrapped ==> (HeadSignaled(t.sem) <==> t.sem.queue[0].needs <= t.sem.count)
    ensures forall i :: 1 <= i < |t.sem.queue| ==> !t.sem.queue[i].signaled
    ensures DistinctTids(t.sem.queue)
  {
    InitInv(initCount);
    RunInv(Init(initCount), acts, t, initCount);
    var tid := t.sem.queue[0].tid;
    assert IsParked(t.sem, tid);
  }

  /** The first `k` waiters re-check, one after the other. */
  function HandOffs(q: seq<Waiter>, k: nat): seq<Action>
    requires k <= |q|
  {
    if k == 0 then [] else [DoRecheck(q[0].tid)] + HandOffs(q[1..], k - 1)
  }

  /** What the first `k` waiters are granted: each the units it asked for. */
  function Grantees(q: seq<Waiter>, requests: seq<nat>, k: nat): seq<Grant>
    requires k <= |q| == |requests|
  {
    if k == 0 then [] else [Grant(requests[0], q[0].tid, q[0].needs)] + Grantees(q[1..], requests[1..], k - 1)
  }

  lemma HandOffsNotify(c: nat, q: seq<Waiter>, requests: seq<nat>, k: nat)
    requires k <= |q| == |requests|
    ensures HandOffs(NotifyHead(c, q), k) == HandOffs(q, k)
    ensures Grantees(NotifyHead(c, q), requests, k) == Grantees(q, requests, k)
  {
    if k > 0 {
      assert NotifyHead(c, q)[1..] == q[1..];
    }
  }

  lemma HandOffStep(s: Sys, initCount: int) returns (v: Sys)
    requires Inv(s, initCount) && HeadSignaled(s.sem)
    ensures Enabled(s, DoRecheck(s.sem.queue[0].tid)) && v == Apply(s, DoRecheck(s.sem.queue[0].tid))
    ensures Inv(v, initCount) && v.wrapped == s.wrapped
    ensures v.sem == Wake(s.sem) && v.requests == s.requests[1..]
    ensures v.grants == s.grants + [Grant(s.requests[0], s.sem.queue[0].tid, s.sem.queue[0].needs)]
  {
    var a := DoRecheck(s.sem.queue[0].tid);
    assert IsParked(s.sem, s.sem.queue[0].tid);
    v := Apply(s, a);
    StepInv(s, a, initCount);
  }

  lemma {:induction false} HandOffsRun(s: Sys, k: nat, initCount: int) returns (u: Sys)
    requires Inv(s, initCount) && CanCascade(s.sem, k) && k <= |s.sem.queue|
    ensures Runs(s, HandOffs(s.sem.queue, k), u)
    ensures u.sem == Cascade(s.sem, k) && u.requests == s.requests[k..]
    ensures u.grants == s.grants + Grantees(s.sem.queue, s.requests, k)
    decreases k
  {
    if k == 0 {
      return s;
    }
    var v := HandOffStep(s, initCount);
    var q := s.sem.queue[1..];
    HandOffsNotify(v.sem.count, q, v.requests, k - 1);
    u := HandOffsRun(v, k - 1, initCount);
    HandOffsJoin(s, v, u, k);
    GrantsJoin(s.sem.queue, s.requests, k, s.grants);
  }

  /** One hand-off and the run of the others behind it. */
  lemma HandOffsJoin(s: Sys, v: Sys, u: Sys, k: nat)
    requires 0 < k <= |s.sem.queue|
    requires Enabled(s, DoRecheck(s.sem.queue[0].tid)) && v == Apply(s, DoRecheck(s.sem.queue[0].tid))
    requires Runs(v, HandOffs(s.sem.queue[1..], k - 1), u)
    ensures Runs(s, HandOffs(s.sem.queue, k), u)
  {
    Chain(s, DoRecheck(s.sem.queue[0].tid), v, HandOffs(s.sem.queue[1..], k - 1), u);
  }

  lemma GrantsJoin(q: seq<Waiter>, requests: seq<nat>, k: nat, grants: seq<Grant>)
    requires 0 < k <= |q| == |requests|
    ensures grants + [Grant(requests[0], q[0].tid, q[0].needs)] + Grantees(q[1..], requests[1..], k - 1) == grants + Grantees(q, requests, k)
    ensures requests[1..][k - 1..] == requests[k..]
  {
  }

  /**
    After any run whose counter never wrapped, re-checks alone grant exactly the longest prefix
    of the queue that fits: the first `k` waiters can be served in a row if and only if their
    needs fit together, and then each gets precisely what the request it made asked for.
   */
  lemma LongestPrefixIsGranted(initCount: int, acts: seq<Action>, t: Sys, k: nat)
    requires Runs(Init(initCount), acts, t) && !t.wrapped && k <= |t.sem.queue|
    ensures CanCascade(t.sem, k) <==> PrefixSum(t.sem.queue, k) <= t.sem.count
    ensures CanCascade(t.sem, k) ==>
              && |t.requests| == |t.sem.queue|
              && exists u :: Runs(t, HandOffs(t.sem.queue, k), u) && Served(t, k, u)
  {
    InitInv(initCount);
    RunInv(Init(initCount), acts, t, initCount);
    CascadeGrantsLongestPrefix(t.sem, k);
    if CanCascade(t.sem, k) {
      var u := HandOffsRun(t, k, initCount);
      ServedAsNamed(t, k, u);
    }
  }

  predicate Served(t: Sys, k: nat, u: Sys)
    requires k <= |t.sem.queue| == |t.requests|
  {
    && u.sem.count == t.sem.count - PrefixSum(t.sem.queue, k)
    && u.requests == t.requests[k..]
    && |u.grants| == |t.grants| + k && u.grants[..|t.grants|] == t.grants
    && (forall i :: 0 <= i < k ==>
          && t.requests[i] < |t.arrivals|
          && u.grants[|t.grants| + i] == Grant(t.requests[i], t.arrivals[t.requests[i]].tid, ToU32(t.arrivals[t.requests[i]].need)))
  }

  lemma {:induction false} GranteesAre(q: seq<Waiter>, requests: seq<nat>, k: nat)
    requires k <= |q| == |requests|
    ensures |Grantees(q, requests, k)| == k
    ensures forall i :: 0 <= i < k ==> Grantees(q, requests, k)[i] == Grant(requests[i], q[i].tid, q[i].needs)
  {
    if k > 0 {
      GranteesAre(q[1..], requests[1..], k - 1);
    }
  }

  lemma ServedAsNamed(t: Sys, k: nat, u: Sys)
    requires Named(t) && k <= |t.sem.queue|
    requires u.sem.count == t.sem.count - PrefixSum(t.sem.queue, k) && u.requests == t.requests[k..]
    requires u.grants == t.grants + Grantees(t.sem.queue, t.requests, k)
    ensures Served(t, k, u)
  {
    GranteesAre(t.sem.queue, t.requests, k);
  }

  lemma SignalKeepsFit(s: Sem, n: int)
    requires WellFormed(s) && SignaledImpliesFits(s) && s.count + ToU32(n) < U32
    ensures SignaledImpliesFits(Signal(s, n))
  {
    ShiftU32(n, s.count);
  }

  lemma SignalStrands(s: Sem, n: int)
    requires s.count < U32 && s.queue == [Waiter(1, s.count, true)] && s.count + ToU32(n) >= U32
    ensures HeadSignaled(Signal(s, n)) && !SignaledImpliesFits(Signal(s, n))
  {
    ShiftU32(n, s.count);
    assert ToU32(s.count + ToU32(n)) == s.count + ToU32(n) - U32;
  }

  /**
    When a signal is safe: in every well-formed semaphore with that count, a head that was handed
    the semaphore still fits after the signal, if and only if the unsigned addition does not wrap.
   */
  lemma SignalIsSafeIff(count: nat, n: int)
    requires count < U32
    ensures count + ToU32(n) < U32 <==>
            forall s: Sem :: s.count == count && WellFormed(s) && SignaledImpliesFits(s) ==> SignaledImpliesFits(Signal(s, n))
  {
    if count + ToU32(n) < U32 {
      forall s: Sem | s.count == count && WellFormed(s) && SignaledImpliesFits(s) ensures SignaledImpliesFits(Signal(s, n)) {
        SignalKeepsFit(s, n);
      }
    } else {
      var s := Sem(count, [Waiter(1, count, true)], true);
      assert WellFormed(s) && SignaledImpliesFits(s);
      SignalStrands(s, n);
    }
  }

  /** A thread waits for 6 of 5 units; three signals later it is told to go on although 4 are there. */
  function Stranding(): seq<Action> {
    [DoWait(7, 6), DoSignal(1), DoSignal(0x7fff_ffff), DoSignal(0x7fff_ffff)]
  }

  lemma Chain(s: Sys, a: Action, t: Sys, acts: seq<Action>, u: Sys)
    requires Enabled(s, a) && t == Apply(s, a) && Runs(t, acts, u)
    ensures Runs(s, [a] + acts, u)
  {
    assert ([a] + acts)[1..] == acts;
  }

  /** The three signals, one after the other. */
  lemma StrandingCounts()
    ensures ToU32(5 + 1) == 6 && ToU32(6 + 0x7fff_ffff) == 0x8000_0005 && ToU32(0x8000_0005 + 0x7fff_ffff) == 4
    ensures ToU32(4 - 6) == 0xffff_fffe
  {
    assert ToU32(0x1_0000_0004) == ToU32(4);
    assert ToU32(-2) == ToU32(0xffff_fffe);
  }

  lemma StrandingSems()
    ensures Wait(Sem(5, [], true), 7, 6) == Sem(5, [Waiter(7, 6, false)], true)
    ensures Signal(Sem(5, [Waiter(7, 6, false)], true), 1) == Sem(6, [Waiter(7, 6, true)], true)
    ensures Signal(Sem(6, [Waiter(7, 6, true)], true), 0x7fff_ffff) == Sem(0x8000_0005, [Waiter(7, 6, true)], true)
    ensures Signal(Sem(0x8000_0005, [Waiter(7, 6, true)], true), 0x7fff_ffff) == Sem(4, [Waiter(7, 6, true)], true)
    ensures Wake(Sem(4, [Waiter(7, 6, true)], true)).count == 0xffff_fffe
  {
    StrandingCounts();
  }

  /** What a wrapped signal leads to: the signaled head takes more units than there are, and the count wraps below zero. */
  lemma WrappedSignalStrandsHead() returns (t: Sys)
    ensures Runs(Init(5), Stranding(), t)
    ensures t.sem == Sem(4, [Waiter(7, 6, true)], true)
    ensures Enabled(t, DoRecheck(7)) && t.requests != [] && Apply(t, DoRecheck(7)).sem.count == 0xffff_fffe
  {
    StrandingSems();
    t := StrandingRun();
    assert t.sem.queue[0].tid == 7;
  }

  lemma StrandingRun() returns (t: Sys)
    ensures Runs(Init(5), Stranding(), t) && |t.requests| == 1
    ensures t.sem == Signal(Signal(Signal(Wait(Sem(5, [], true), 7, 6), 1), 0x7fff_ffff), 0x7fff_ffff)
  {
    var s0 := Init(5);
    var s1 := Apply(s0, DoWait(7, 6));
    var rest;
    rest, t := ThreeSignals(s1, 1, 0x7fff_ffff);
    Chain(s0, DoWait(7, 6), s1, rest, t);
    assert Stranding() == [DoWait(7, 6)] + rest;
  }

  lemma ThreeSignals(s: Sys, first: int, second: int) returns (acts: seq<Action>, t: Sys)
    ensures acts == [DoSignal(first), DoSignal(second), DoSignal(second)] && Runs(s, acts, t)
    ensures t.sem == Signal(Signal(Signal(s.sem, first), second), second) && t.requests == s.requests
  {
    var u := Apply(s, DoSignal(first));
    var v := Apply(u, DoSignal(second));
    t := Apply(v, DoSignal(second));
    acts := [DoSignal(second)];
    Chain(v, DoSignal(second), t, [], t);
    Chain(u, DoSignal(second), v, acts, t);
    Chain(s, DoSignal(first), u, [DoSignal(second)] + acts, t);
    acts := [DoSignal(first)] + ([DoSignal(second)] + acts);
  }
}
