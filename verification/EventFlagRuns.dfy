/**
  Any number of threads using one event flag, from its construction to the end of its
  destructor. A step is one section under the mutex; a sleeping thread may look at its predicate
  again at any time, and `woken` holds the sleepers a notification is on its way to.
 */
module EventFlagRuns {
  import opened Words
  import opened EventFlagSpec

  datatype Op = SetOp(bits: Word) | ClearOp(bits: Word) | CancelOp(bits: Word) | DeleteOp

  /**
    The thread that waits for all waiters to leave: whom it counted and reported, and how many
    waits had returned before.
   */
  datatype Drainer = Drainer(tid: int, deleting: bool, bits: Word, counted: set<int>, reported: nat, from: nat)

  /** A drain that is over, with the number of waits returned by then. */
  datatype Drain = Drain(drainer: Drainer, to: nat)

  datatype Return = Return(tid: int, request: Request, result: Result)

  /**
    `parked` sleeps in a wait and `blocked` in front of an operation. `raises` lists the bits of
    the sets and cancels that took effect.
   */
  datatype Sys = Sys(
    flag: Flag,
    parked: map<int, Request>,
    blocked: map<int, Op>,
    drainer: Option<Drainer>,
    woken: set<int>,
    gone: bool,
    outcomes: seq<Return>,
    drains: seq<Drain>,
    raises: seq<Word>)

  datatype Action =
    | Arrive(tid: int, op: Op)
    | Retry(tid: int)
    | CheckDrained
    | WaitArrive(tid: int, request: Request)
    | WaitCheck(tid: int)
    | TimeOut(tid: int)

  function Init(single: bool, bits: Word): Sys {
    Sys(Flag(Set, bits, 0, single), map[], map[], None, {}, false, [], [], [])
  }

  function DrainerTid(s: Sys): set<int> {
    if s.drainer.Some? then {s.drainer.value.tid} else {}
  }

  predicate Idle(s: Sys, tid: int) {
    tid !in s.parked && tid !in s.blocked && tid !in DrainerTid(s)
  }

  predicate Enabled(s: Sys, a: Action) {
    && !s.gone
    && match a
       case Arrive(tid, _) => Idle(s, tid)
       case Retry(tid) => tid in s.blocked
       case CheckDrained => s.drainer.Some?
       case WaitArrive(tid, _) => Idle(s, tid)
       case WaitCheck(tid) => tid in s.parked && s.flag.waiting > 0
       case TimeOut(tid) => tid in s.parked && s.flag.waiting > 0 && s.parked[tid].timed && !Fulfilled(s.flag, s.parked[tid])
  }

  /** The drain is over: a cancel reopens the flag, the destructor lets it go. */
  function FinishDrain(s: Sys, d: Drainer): Sys {
    var t := s.(drainer := None, drains := s.drains + [Drain(d, |s.outcomes|)]);
    if d.deleting then t.(gone := true, woken := {})
    else t.(flag := EndCancel(s.flag), woken := s.woken - {d.tid} + s.blocked.Keys)
  }

  /** A drain that begins with nobody waiting is over at once. */
  function StartDrain(s: Sys, d: Drainer): Sys {
    var t := s.(drainer := Some(d), woken := s.woken + s.parked.Keys);
    if s.flag.waiting == 0 then FinishDrain(t, d) else t
  }

  function Unblocked(s: Sys, tid: int): Sys {
    s.(blocked := s.blocked - {tid}, woken := s.woken - {tid})
  }

  function Perform(s: Sys, tid: int, op: Op): Sys {
    match op
    case SetOp(bits) => s.(flag := SetBits(s.flag, bits), woken := s.woken + s.parked.Keys, raises := s.raises + [bits])
    case ClearOp(bits) => s.(flag := ClearBits(s.flag, bits))
    case CancelOp(bits) =>
      StartDrain(s.(flag := BeginCancel(s.flag, bits), raises := s.raises + [bits]),
                 Drainer(tid, false, bits, s.parked.Keys, s.flag.waiting, |s.outcomes|))
    case DeleteOp =>
      StartDrain(s.(flag := BeginDelete(s.flag)),
                 Drainer(tid, true, s.flag.bits, s.parked.Keys, s.flag.waiting, |s.outcomes|))
  }

  function Returned(s: Sys, tid: int, r: Request, result: Result): Sys {
    s.(parked := s.parked - {tid}, woken := s.woken - {tid}, outcomes := s.outcomes + [Return(tid, r, result)])
  }

  function LeaveWait(s: Sys, tid: int, r: Request): Sys
    requires s.flag.waiting > 0
  {
    var t := Returned(s, tid, r, Result(LeaveCode(s.flag), Some(s.flag.bits)));
    t.(flag := Leave(s.flag, r), woken := t.woken + s.blocked.Keys + DrainerTid(s))
  }

  function Apply(s: Sys, a: Action): Sys
    requires Enabled(s, a)
  {
    match a
    case Arrive(tid, op) =>
      if s.flag.status == Set then Perform(s, tid, op) else s.(blocked := s.blocked[tid := op])
    case Retry(tid) =>
      if s.flag.status == Set then
        Perform(Unblocked(s, tid), tid, s.blocked[tid])
      else s.(woken := s.woken - {tid})
    case CheckDrained =>
      if s.flag.waiting == 0 then FinishDrain(s, s.drainer.value) else s.(woken := s.woken - {s.drainer.value.tid})
    case WaitArrive(tid, r) =>
      if Refuses(s.flag) then Returned(s, tid, r, Result(EPERM, None))
      else if Fulfilled(s.flag, r) then LeaveWait(s.(flag := Enter(s.flag)), tid, r)
      else s.(flag := Enter(s.flag), parked := s.parked[tid := r])
    case WaitCheck(tid) =>
      if Fulfilled(s.flag, s.parked[tid]) then LeaveWait(s, tid, s.parked[tid])
      else s.(woken := s.woken - {tid})
    case TimeOut(tid) =>
      Returned(s, tid, s.parked[tid], Result(ETIMEDOUT, Some(s.flag.bits))).(flag := GiveUp(s.flag))
  }

  ghost predicate Runs(s: Sys, acts: seq<Action>, t: Sys)
    decreases |acts|
  {
    if acts == [] then s == t else Enabled(s, acts[0]) && Runs(Apply(s, acts[0]), acts[1..], t)
  }

  // ---- invariants ----

  /** Who sleeps where, and that the status says whether somebody drains. */
  predicate Placed(s: Sys) {
    s.flag.waiting == |s.parked| && Apart(s)
  }

  predicate Apart(s: Sys) {
    && (forall tid :: tid in s.parked ==> tid !in s.blocked && tid !in DrainerTid(s))
    && (forall tid :: tid in s.blocked ==> tid !in DrainerTid(s))
    && (forall tid :: tid in s.woken ==> !Idle(s, tid))
    && (s.drainer.Some? ==> !s.gone && s.flag.status == if s.drainer.value.deleting then Deleted else Canceled)
    && (s.drainer.None? ==> s.flag.status == if s.gone then Deleted else Set)
    && (s.gone ==> s.parked == map[])
  }

  /** Whoever may go on has a notification on its way. */
  predicate Awake(s: Sys) {
    && (forall tid :: tid in s.parked && Fulfilled(s.flag, s.parked[tid]) ==> tid in s.woken)
    && (s.flag.status == Set ==> s.blocked.Keys <= s.woken)
    && (s.drainer.Some? && s.flag.waiting == 0 ==> s.drainer.value.tid in s.woken)
  }

  /** From `from` to `to` waits returned only with the drain's code, and `left` are among them. */
  ghost predicate Drained(outcomes: seq<Return>, d: Drainer, to: nat, left: set<int>) {
    && d.from <= to <= |outcomes|
    && d.reported == |d.counted|
    && (forall i :: d.from <= i < to ==>
          outcomes[i].result.code in {EPERM, if d.deleting then EINTR else ECANCELED})
    && (forall tid :: tid in left ==> exists i ::
          d.from <= i < to && outcomes[i].tid == tid && outcomes[i].result.code == if d.deleting then EINTR else ECANCELED)
  }

  ghost predicate Draining(s: Sys) {
    && (s.drainer.Some? ==>
          var d := s.drainer.value;
          && s.parked.Keys <= d.counted && s.flag.bits == d.bits
          && Drained(s.outcomes, d, |s.outcomes|, d.counted - s.parked.Keys))
    && (forall i :: 0 <= i < |s.drains| ==> Drained(s.outcomes, s.drains[i].drainer, s.drains[i].to, s.drains[i].drainer.counted))
  }

  /** How often successful waits saw `b` set and cleared it. */
  function Consumed(outcomes: seq<Return>, b: Bit): nat {
    if outcomes == [] then 0 else Consumed(outcomes[..|outcomes| - 1], b) + if Consumes(outcomes[|outcomes| - 1], b) then 1 else 0
  }

  predicate Consumes(r: Return, b: Bit) {
    r.result.code == Ok && r.result.seen.Some? && b in r.result.seen.value && b !in Cleared(r.result.seen.value, r.request)
  }

  function Raised(raises: seq<Word>, b: Bit): nat {
    if raises == [] then 0 else Raised(raises[..|raises| - 1], b) + if b in raises[|raises| - 1] then 1 else 0
  }

  /** What `b` was raised and not yet consumed covers whether it is set. */
  predicate Balanced(s: Sys, b: Bit, initial: nat) {
    Consumed(s.outcomes, b) + (if b in s.flag.bits then 1 else 0) <= initial + Raised(s.raises, b)
  }

  predicate Truthful(r: Return) {
    match r.result.code
    case Ok => r.result.seen.Some? && Matches(r.result.seen.value, r.request)
    case ETIMEDOUT => r.request.timed && r.result.seen.Some? && !Matches(r.result.seen.value, r.request)
    case EPERM => r.result.seen.None?
    case _ => r.result.seen.Some?
  }

  predicate AllTruthful(s: Sys) {
    forall i :: 0 <= i < |s.outcomes| ==> Truthful(s.outcomes[i])
  }

  ghost predicate Inv(s: Sys) {
    Placed(s) && Awake(s) && Draining(s) && AllTruthful(s)
  }

  // ---- one step ----

  lemma StartPlaced(s: Sys, d: Drainer)
    requires s.flag.waiting == |s.parked| && !s.gone
    requires d.tid !in s.parked && d.tid !in s.blocked
    requires forall tid :: tid in s.parked ==> tid !in s.blocked
    requires forall tid :: tid in s.woken ==> tid in s.parked || tid in s.blocked
    requires s.flag.status == if d.deleting then Deleted else Canceled
    ensures Placed(StartDrain(s, d))
  {
    if s.flag.waiting == 0 {
      assert s.parked == map[];
    }
  }

  lemma PerformPlaced(s: Sys, tid: int, op: Op)
    requires Placed(s) && s.flag.status == Set && Idle(s, tid)
    ensures Placed(Perform(s, tid, op))
  {
    match op
    case SetOp(bits) =>
    case ClearOp(bits) =>
    case CancelOp(bits) =>
      StartPlaced(s.(flag := BeginCancel(s.flag, bits), raises := s.raises + [bits]),
                  Drainer(tid, false, bits, s.parked.Keys, s.flag.waiting, |s.outcomes|));
    case DeleteOp =>
      StartPlaced(s.(flag := BeginDelete(s.flag)),
                  Drainer(tid, true, s.flag.bits, s.parked.Keys, s.flag.waiting, |s.outcomes|));
  }

  lemma Removed(m: map<int, Request>, tid: int)
    requires tid in m
    ensures |m - {tid}| == |m| - 1 && (m - {tid}).Keys == m.Keys - {tid}
  {
    assert m == (m - {tid})[tid := m[tid]];
  }

  lemma NotParked(m: map<int, Request>, tid: int)
    requires tid !in m
    ensures m - {tid} == m
  {
  }

  /** One sleeper has left a wait; others may have been woken. */
  lemma LeavePlaced(s: Sys, t: Sys, tid: int)
    requires Placed(s) && tid in s.parked && t.parked == s.parked - {tid}
    requires t.blocked == s.blocked && t.drainer == s.drainer && t.gone == s.gone
    requires t.flag.waiting == s.flag.waiting - 1 && t.flag.status == s.flag.status
    requires t.woken <= s.woken - {tid} + s.blocked.Keys + DrainerTid(s)
    ensures Placed(t)
  {
    Removed(s.parked, tid);
    LeaveApart(s, t, tid);
  }

  lemma LeaveApart(s: Sys, t: Sys, tid: int)
    requires Apart(s) && tid in s.parked && t.parked == s.parked - {tid}
    requires t.blocked == s.blocked && t.drainer == s.drainer && t.gone == s.gone && t.flag.status == s.flag.status
    requires t.woken <= s.woken - {tid} + s.blocked.Keys + DrainerTid(s)
    ensures Apart(t)
  {
    forall u | u in t.woken ensures !Idle(t, u) {
      assert u != tid ==> u in s.woken || u in s.blocked || u in DrainerTid(s);
    }
  }

  /** Nothing but the waking of sleepers has changed. */
  lemma SameSleepersPlaced(s: Sys, t: Sys)
    requires Placed(s) && t.parked == s.parked && t.blocked == s.blocked && t.drainer == s.drainer && t.gone == s.gone
    requires t.flag.waiting == s.flag.waiting && t.flag.status == s.flag.status
    requires t.woken <= s.woken + s.blocked.Keys + DrainerTid(s)
    ensures Placed(t)
  {
    forall tid | tid in t.woken ensures !Idle(t, tid) {
      assert tid in s.woken || tid in s.blocked || tid in DrainerTid(s);
    }
  }

  lemma ParkPlaced(s: Sys, tid: int, r: Request)
    requires Placed(s) && Idle(s, tid) && !s.gone
    ensures Placed(s.(flag := Enter(s.flag), parked := s.parked[tid := r]))
  {
    assert |s.parked[tid := r]| == |s.parked| + 1;
  }

  lemma WaitArrivePlaced(s: Sys, tid: int, r: Request)
    requires Placed(s) && Enabled(s, WaitArrive(tid, r))
    ensures Placed(Apply(s, WaitArrive(tid, r)))
  {
    NotParked(s.parked, tid);
    if Refuses(s.flag) || Fulfilled(s.flag, r) {
      SameSleepersPlaced(s, Apply(s, WaitArrive(tid, r)));
    } else {
      ParkPlaced(s, tid, r);
    }
  }

  lemma BlockPlaced(s: Sys, tid: int, op: Op)
    requires Placed(s) && Idle(s, tid) && !s.gone
    ensures Placed(s.(blocked := s.blocked[tid := op]))
  {
  }

  lemma UnblockPlaced(s: Sys, tid: int)
    requires Placed(s) && tid in s.blocked
    ensures Placed(Unblocked(s, tid)) && Idle(Unblocked(s, tid), tid)
  {
  }

  lemma DrainedPlaced(s: Sys)
    requires Placed(s) && s.drainer.Some? && s.flag.waiting == 0
    ensures Placed(FinishDrain(s, s.drainer.value))
  {
    assert s.parked == map[];
  }

  lemma StepPlaced(s: Sys, a: Action)
    requires Placed(s) && Enabled(s, a)
    ensures Placed(Apply(s, a))
  {
    match a
    case Arrive(tid, op) => ArrivePlaced(s, tid, op);
    case Retry(tid) => RetryPlaced(s, tid);
    case CheckDrained => CheckPlaced(s);
    case WaitArrive(tid, r) => WaitArrivePlaced(s, tid, r);
    case WaitCheck(tid) => WaitCheckPlaced(s, tid);
    case TimeOut(tid) => LeavePlaced(s, Apply(s, a), tid);
  }

  lemma ArrivePlaced(s: Sys, tid: int, op: Op)
    requires Placed(s) && Enabled(s, Arrive(tid, op))
    ensures Placed(Apply(s, Arrive(tid, op)))
  {
    if s.flag.status == Set {
      PerformPlaced(s, tid, op);
    } else {
      BlockPlaced(s, tid, op);
    }
  }

  lemma RetryPlaced(s: Sys, tid: int)
    requires Placed(s) && Enabled(s, Retry(tid))
    ensures Placed(Apply(s, Retry(tid)))
  {
    if s.flag.status == Set {
      UnblockPlaced(s, tid);
      PerformPlaced(Unblocked(s, tid), tid, s.blocked[tid]);
    } else {
      SameSleepersPlaced(s, Apply(s, Retry(tid)));
    }
  }

  lemma CheckPlaced(s: Sys)
    requires Placed(s) && Enabled(s, CheckDrained)
    ensures Placed(Apply(s, CheckDrained))
  {
    if s.flag.waiting == 0 {
      DrainedPlaced(s);
    } else {
      SameSleepersPlaced(s, Apply(s, CheckDrained));
    }
  }

  lemma WaitCheckPlaced(s: Sys, tid: int)
    requires Placed(s) && Enabled(s, WaitCheck(tid))
    ensures Placed(Apply(s, WaitCheck(tid)))
  {
    if Fulfilled(s.flag, s.parked[tid]) {
      LeavePlaced(s, Apply(s, WaitCheck(tid)), tid);
    } else {
      SameSleepersPlaced(s, Apply(s, WaitCheck(tid)));
    }
  }

  // ---- one step: notifications ----

  lemma ClearAwake(s: Sys, bits: Word, woken: set<int>, parked: map<int, Request>)
    requires forall tid :: tid in s.parked && Fulfilled(s.flag, s.parked[tid]) ==> tid in s.woken
    requires bits <= s.flag.bits && parked.Keys <= s.parked.Keys
    requires forall tid :: tid in parked ==> parked[tid] == s.parked[tid] && (tid in s.woken ==> tid in woken)
    ensures forall tid :: tid in parked && Fulfilled(s.flag.(bits := bits), parked[tid]) ==> tid in woken
  {
    forall tid | tid in parked && Fulfilled(s.flag.(bits := bits), parked[tid]) ensures tid in woken {
      if s.flag.status == Set {
        MatchesGrows(bits, s.flag.bits, parked[tid]);
      }
    }
  }

  lemma PerformAwake(s: Sys, tid: int, op: Op)
    requires Placed(s) && Awake(s) && s.flag.status == Set && Idle(s, tid)
    ensures Awake(Perform(s, tid, op))
  {
    if op.ClearOp? {
      ClearAwake(s, s.flag.bits * op.bits, s.woken, s.parked);
    }
  }

  lemma RetryAwake(s: Sys, tid: int)
    requires Placed(s) && Awake(s) && tid in s.blocked
    ensures var t := Unblocked(s, tid); Placed(t) && Awake(t) && Idle(t, tid)
  {
  }

  lemma LeaveAwake(s: Sys, tid: int, r: Request)
    requires s.flag.waiting > 0
    requires forall u :: u in s.parked && Fulfilled(s.flag, s.parked[u]) ==> u in s.woken
    ensures Awake(LeaveWait(s, tid, r))
  {
    var t := LeaveWait(s, tid, r);
    ClearAwake(s, t.flag.bits, t.woken, t.parked);
  }

  lemma WaitArriveAwake(s: Sys, tid: int, r: Request)
    requires Placed(s) && Awake(s) && Enabled(s, WaitArrive(tid, r))
    ensures Awake(Apply(s, WaitArrive(tid, r)))
  {
    NotParked(s.parked, tid);
    if !Refuses(s.flag) && Fulfilled(s.flag, r) {
      LeaveAwake(s.(flag := Enter(s.flag)), tid, r);
    }
  }

  lemma StepAwake(s: Sys, a: Action)
    requires Placed(s) && Awake(s) && Enabled(s, a)
    ensures Awake(Apply(s, a))
  {
    match a
    case Arrive(tid, op) =>
      if s.flag.status == Set {
        PerformAwake(s, tid, op);
      }
    case Retry(tid) =>
      RetryAwake(s, tid);
      if s.flag.status == Set {
        PerformAwake(Unblocked(s, tid), tid, s.blocked[tid]);
      }
    case CheckDrained =>
      if s.flag.waiting == 0 {
        assert s.parked == map[];
      }
    case WaitArrive(tid, r) => WaitArriveAwake(s, tid, r);
    case WaitCheck(tid) =>
      if Fulfilled(s.flag, s.parked[tid]) {
        LeaveAwake(s, tid, s.parked[tid]);
      }
    case TimeOut(tid) =>
  }

  // ---- one step: drains ----

  lemma DrainedGrows(outcomes: seq<Return>, more: Return, d: Drainer, to: nat, left: set<int>)
    requires Drained(outcomes, d, to, left)
    ensures Drained(outcomes + [more], d, to, left)
  {
    var grown := outcomes + [more];
    forall tid | tid in left
      ensures exists i :: d.from <= i < to && grown[i].tid == tid && grown[i].result.code == if d.deleting then EINTR else ECANCELED
    {
      var i :| d.from <= i < to && outcomes[i].tid == tid && outcomes[i].result.code == if d.deleting then EINTR else ECANCELED;
      assert grown[i] == outcomes[i];
    }
  }

  /** One more wait returns with the drain's code while it goes on. */
  lemma DrainedSteps(outcomes: seq<Return>, more: Return, d: Drainer, left: set<int>)
    requires Drained(outcomes, d, |outcomes|, left)
    requires more.result.code in {EPERM, if d.deleting then EINTR else ECANCELED}
    ensures var also := if more.result.code == EPERM then {} else {more.tid};
      Drained(outcomes + [more], d, |outcomes| + 1, left + also)
  {
    DrainedGrows(outcomes, more, d, |outcomes|, left);
    assert (outcomes + [more])[|outcomes|] == more;
  }

  lemma NobodyLeft(outcomes: seq<Return>, d: Drainer)
    requires d.from == |outcomes| && d.reported == |d.counted|
    ensures Drained(outcomes, d, |outcomes|, d.counted - d.counted)
    ensures d.reported == 0 ==> Drained(outcomes, d, |outcomes|, d.counted)
  {
    assert d.counted - d.counted == {};
    assert d.reported == 0 ==> d.counted == {};
  }

  lemma StartDraining(s: Sys, d: Drainer)
    requires Draining(s) && s.flag.waiting == |s.parked| && s.drainer.None? && d.from == |s.outcomes|
    requires d.counted == s.parked.Keys && d.reported == |s.parked| && d.bits == s.flag.bits
    ensures Draining(StartDrain(s, d))
  {
    assert |s.parked| == |s.parked.Keys|;
    NobodyLeft(s.outcomes, d);
    if s.flag.waiting == 0 {
      DrainRecorded(s, StartDrain(s, d), Drain(d, |s.outcomes|));
    }
  }

  /** A finished drain joins the others. */
  lemma DrainRecorded(s: Sys, t: Sys, more: Drain)
    requires Draining(s) && Drained(s.outcomes, more.drainer, more.to, more.drainer.counted)
    requires t.outcomes == s.outcomes && t.drains == s.drains + [more] && t.drainer.None?
    ensures Draining(t)
  {
  }

  lemma PerformDraining(s: Sys, tid: int, op: Op)
    requires Placed(s) && Draining(s) && s.flag.status == Set
    ensures Draining(Perform(s, tid, op))
  {
    match op
    case SetOp(bits) =>
    case ClearOp(bits) =>
    case CancelOp(bits) =>
      StartDraining(s.(flag := BeginCancel(s.flag, bits), raises := s.raises + [bits]),
                    Drainer(tid, false, bits, s.parked.Keys, s.flag.waiting, |s.outcomes|));
    case DeleteOp =>
      StartDraining(s.(flag := BeginDelete(s.flag)),
                    Drainer(tid, true, s.flag.bits, s.parked.Keys, s.flag.waiting, |s.outcomes|));
  }

  /** The drain going on after one more wait returned. */
  lemma DrainerKept(outcomes: seq<Return>, more: Return, d: Drainer, parked: set<int>, rest: set<int>)
    requires Drained(outcomes, d, |outcomes|, d.counted - parked) && rest == parked - {more.tid}
    requires more.result.code in {EPERM, if d.deleting then EINTR else ECANCELED}
    requires more.tid in parked ==> more.result.code != EPERM
    ensures Drained(outcomes + [more], d, |outcomes| + 1, d.counted - rest)
  {
    DrainedSteps(outcomes, more, d, d.counted - parked);
    var also := if more.result.code == EPERM then {} else {more.tid};
    assert d.counted - rest <= (d.counted - parked) + also;
  }

  /** A wait that returns keeps what is known of drains, running or over. */
  lemma ReturnDraining(s: Sys, t: Sys, more: Return)
    requires Draining(s)
    requires t.outcomes == s.outcomes + [more] && t.drains == s.drains && t.drainer == s.drainer
    requires t.parked.Keys == s.parked.Keys - {more.tid}
    requires s.drainer.Some? ==> t.flag.bits == s.flag.bits
    requires s.drainer.Some? ==> more.result.code in {EPERM, if s.drainer.value.deleting then EINTR else ECANCELED}
    requires more.tid in s.parked ==> more.result.code != EPERM
    ensures Draining(t)
  {
    forall i | 0 <= i < |t.drains|
      ensures Drained(t.outcomes, t.drains[i].drainer, t.drains[i].to, t.drains[i].drainer.counted)
    {
      DrainedGrows(s.outcomes, more, s.drains[i].drainer, s.drains[i].to, s.drains[i].drainer.counted);
    }
    if s.drainer.Some? {
      DrainerKept(s.outcomes, more, s.drainer.value, s.parked.Keys, t.parked.Keys);
    }
  }

  lemma WaitArriveDraining(s: Sys, tid: int, r: Request)
    requires Placed(s) && Draining(s) && Enabled(s, WaitArrive(tid, r))
    ensures Draining(Apply(s, WaitArrive(tid, r)))
  {
    NotParked(s.parked, tid);
    var t := Apply(s, WaitArrive(tid, r));
    if Refuses(s.flag) {
      ReturnDraining(s, t, Return(tid, r, Result(EPERM, None)));
    } else if Fulfilled(s.flag, r) {
      ReturnDraining(s, t, Return(tid, r, Result(LeaveCode(s.flag), Some(s.flag.bits))));
    }
  }

  lemma WaitLeaveDraining(s: Sys, a: Action)
    requires Placed(s) && Draining(s) && Enabled(s, a) && (a.WaitCheck? || a.TimeOut?)
    ensures Draining(Apply(s, a))
  {
    var t := Apply(s, a);
    if |t.outcomes| > |s.outcomes| {
      ReturnDraining(s, t, t.outcomes[|s.outcomes|]);
    }
  }

  lemma FinishDraining(s: Sys)
    requires Placed(s) && Draining(s) && s.drainer.Some? && s.flag.waiting == 0
    ensures Draining(FinishDrain(s, s.drainer.value))
  {
    assert s.parked == map[];
    assert s.drainer.value.counted - s.parked.Keys == s.drainer.value.counted;
  }

  lemma StepDraining(s: Sys, a: Action)
    requires Placed(s) && Draining(s) && Enabled(s, a)
    ensures Draining(Apply(s, a))
  {
    match a
    case Arrive(tid, op) =>
      if s.flag.status == Set {
        PerformDraining(s, tid, op);
      }
    case Retry(tid) =>
      if s.flag.status == Set {
        UnblockPlaced(s, tid);
        PerformDraining(Unblocked(s, tid), tid, s.blocked[tid]);
      }
    case CheckDrained =>
      if s.flag.waiting == 0 {
        FinishDraining(s);
      }
    case WaitArrive(tid, r) => WaitArriveDraining(s, tid, r);
    case WaitCheck(tid) => WaitLeaveDraining(s, a);
    case TimeOut(tid) => WaitLeaveDraining(s, a);
  }

  // ---- one step: bits and results ----

  lemma ReturnBalanced(s: Sys, t: Sys, more: Return, b: Bit, initial: nat)
    requires Balanced(s, b, initial) && t.outcomes == s.outcomes + [more] && t.raises == s.raises
    requires t.flag.bits <= s.flag.bits && (Consumes(more, b) ==> b in s.flag.bits && b !in t.flag.bits)
    ensures Balanced(t, b, initial)
  {
    assert t.outcomes[..|s.outcomes|] == s.outcomes;
  }

  lemma RaiseBalanced(s: Sys, t: Sys, bits: Word, b: Bit, initial: nat)
    requires Balanced(s, b, initial) && t.outcomes == s.outcomes && t.raises == s.raises + [bits]
    requires b in t.flag.bits ==> b in s.flag.bits || b in bits
    ensures Balanced(t, b, initial)
  {
    assert t.raises[..|s.raises|] == s.raises;
  }

  lemma PerformBalanced(s: Sys, tid: int, op: Op, b: Bit, initial: nat)
    requires Balanced(s, b, initial)
    ensures Balanced(Perform(s, tid, op), b, initial)
  {
    if op.SetOp? || op.CancelOp? {
      RaiseBalanced(s, Perform(s, tid, op), op.bits, b, initial);
    }
  }

  lemma StepBalanced(s: Sys, a: Action, b: Bit, initial: nat)
    requires Balanced(s, b, initial) && Enabled(s, a)
    ensures Balanced(Apply(s, a), b, initial)
  {
    match a
    case Arrive(tid, op) => PerformBalanced(s, tid, op, b, initial);
    case Retry(tid) => PerformBalanced(Unblocked(s, tid), tid, s.blocked[tid], b, initial);
    case CheckDrained =>
    case WaitArrive(tid, r) => WaitArriveBalanced(s, tid, r, b, initial);
    case WaitCheck(tid) => WaitCheckBalanced(s, tid, b, initial);
    case TimeOut(tid) => ReturnBalanced(s, Apply(s, a), Return(tid, s.parked[tid], Result(ETIMEDOUT, Some(s.flag.bits))), b, initial);
  }

  /** A wait that succeeds takes the bits it consumes. */
  lemma LeaveBalanced(s: Sys, tid: int, r: Request, b: Bit, initial: nat)
    requires Balanced(s, b, initial) && s.flag.waiting > 0 && Fulfilled(s.flag, r)
    ensures Balanced(LeaveWait(s, tid, r), b, initial)
  {
    var more := Return(tid, r, Result(LeaveCode(s.flag), Some(s.flag.bits)));
    ReturnBalanced(s, LeaveWait(s, tid, r), more, b, initial);
  }

  lemma WaitArriveBalanced(s: Sys, tid: int, r: Request, b: Bit, initial: nat)
    requires Balanced(s, b, initial) && Enabled(s, WaitArrive(tid, r))
    ensures Balanced(Apply(s, WaitArrive(tid, r)), b, initial)
  {
    if Refuses(s.flag) {
      ReturnBalanced(s, Apply(s, WaitArrive(tid, r)), Return(tid, r, Result(EPERM, None)), b, initial);
    } else if Fulfilled(s.flag, r) {
      LeaveBalanced(s.(flag := Enter(s.flag)), tid, r, b, initial);
    }
  }

  lemma WaitCheckBalanced(s: Sys, tid: int, b: Bit, initial: nat)
    requires Balanced(s, b, initial) && Enabled(s, WaitCheck(tid))
    ensures Balanced(Apply(s, WaitCheck(tid)), b, initial)
  {
    if Fulfilled(s.flag, s.parked[tid]) {
      LeaveBalanced(s, tid, s.parked[tid], b, initial);
    }
  }

  lemma ReturnTruthful(s: Sys, t: Sys, more: Return)
    requires AllTruthful(s) && Truthful(more) && t.outcomes == s.outcomes + [more]
    ensures AllTruthful(t)
  {
  }

  lemma WaitTruthful(s: Sys, a: Action)
    requires AllTruthful(s) && Enabled(s, a) && (a.WaitArrive? || a.WaitCheck? || a.TimeOut?)
    ensures AllTruthful(Apply(s, a))
  {
    var t := Apply(s, a);
    if |t.outcomes| > |s.outcomes| {
      ReturnTruthful(s, t, t.outcomes[|s.outcomes|]);
    }
  }

  lemma PerformReturnsNothing(s: Sys, tid: int, op: Op)
    ensures Perform(s, tid, op).outcomes == s.outcomes
  {
  }

  lemma OperationsReturnNothing(s: Sys, a: Action)
    requires Enabled(s, a) && (a.Arrive? || a.Retry? || a.CheckDrained?)
    ensures Apply(s, a).outcomes == s.outcomes
  {
    match a
    case Arrive(tid, op) => PerformReturnsNothing(s, tid, op);
    case Retry(tid) => PerformReturnsNothing(Unblocked(s, tid), tid, s.blocked[tid]);
    case CheckDrained =>
  }

  lemma StepTruthful(s: Sys, a: Action)
    requires AllTruthful(s) && Enabled(s, a)
    ensures AllTruthful(Apply(s, a))
  {
    if a.WaitArrive? || a.WaitCheck? || a.TimeOut? {
      WaitTruthful(s, a);
    } else {
      OperationsReturnNothing(s, a);
    }
  }

  // ---- runs ----

  lemma {:induction false} RunInv(s: Sys, acts: seq<Action>, t: Sys)
    requires Inv(s) && Runs(s, acts, t)
    ensures Inv(t)
    decreases |acts|
  {
    if acts != [] {
      StepPlaced(s, acts[0]);
      StepAwake(s, acts[0]);
      StepDraining(s, acts[0]);
      StepTruthful(s, acts[0]);
      RunInv(Apply(s, acts[0]), acts[1..], t);
    }
  }

  lemma {:induction false} RunBalanced(s: Sys, acts: seq<Action>, t: Sys, b: Bit, initial: nat)
    requires Balanced(s, b, initial) && Runs(s, acts, t)
    ensures Balanced(t, b, initial)
    decreases |acts|
  {
    if acts != [] {
      StepBalanced(s, acts[0], b, initial);
      RunBalanced(Apply(s, acts[0]), acts[1..], t, b, initial);
    }
  }

  // ---- theorems ----

  /**
    Bits are consumed at most once: over any run, the successful waits, of either mode, that saw
    bit `b` and cleared it are no more than the sets and cancels that raised `b`, plus one if it
    was set to begin with; a bit still set has not been consumed yet.
   */
  lemma BitsAreConsumedAtMostOnce(single: bool, bits: Word, acts: seq<Action>, t: Sys, b: Bit)
    requires Runs(Init(single, bits), acts, t)
    ensures Consumed(t.outcomes, b) + (if b in t.flag.bits then 1 else 0) <= (if b in bits then 1 else 0) + Raised(t.raises, b)
  {
    RunBalanced(Init(single, bits), acts, t, b, if b in bits then 1 else 0);
  }

  /** A successful wait that clears consumes each bit it asked for if it waits for all, and one at least if it waits for any. */
  lemma ClearingWaitsConsume(single: bool, bits: Word, acts: seq<Action>, t: Sys, i: nat)
    requires Runs(Init(single, bits), acts, t) && i < |t.outcomes|
    requires t.outcomes[i].result.code == Ok && t.outcomes[i].request.clear != Keep
    ensures t.outcomes[i].request.mode == And ==> forall b: Bit :: b in t.outcomes[i].request.bits ==> Consumes(t.outcomes[i], b)
    ensures t.outcomes[i].request.mode == Or ==> exists b: Bit :: b in t.outcomes[i].request.bits && Consumes(t.outcomes[i], b)
  {
    RunInv(Init(single, bits), acts, t);
    ConsumeTakes(t.outcomes[i].result.seen.value, t.outcomes[i].request);
  }

  /** A sleeper that may go on has a notification on its way, in every reachable state. */
  lemma NoWakeUpIsLost(single: bool, bits: Word, acts: seq<Action>, t: Sys, tid: int)
    requires Runs(Init(single, bits), acts, t)
    ensures tid in t.parked && Fulfilled(t.flag, t.parked[tid]) ==> tid in t.woken
    ensures tid in t.blocked && t.flag.status == Set ==> tid in t.woken
    ensures tid in DrainerTid(t) && t.flag.waiting == 0 ==> tid in t.woken
    ensures tid in t.woken ==> !Idle(t, tid)
  {
    RunInv(Init(single, bits), acts, t);
  }

  /**
    A drain that is over has had every thread it counted return with its code (ECANCELED for a
    cancel, EINTR for the destructor), and no wait returned anything else meanwhile except for the
    single-waiter refusal. The number a cancel reports is the number of those threads.
   */
  lemma DrainsReachEveryWaiter(single: bool, bits: Word, acts: seq<Action>, t: Sys, n: nat)
    requires Runs(Init(single, bits), acts, t) && n < |t.drains|
    ensures Drained(t.outcomes, t.drains[n].drainer, t.drains[n].to, t.drains[n].drainer.counted)
  {
    RunInv(Init(single, bits), acts, t);
  }

  /**
    While a drain goes on, whatever step comes next leaves the bits alone, no waiter can time
    out, no thread joins the parked ones, every parked one leaves when it looks, and the drain
    ends only when nobody is left.
   */
  lemma DrainIsUndisturbed(single: bool, bits: Word, acts: seq<Action>, s: Sys, a: Action)
    requires Runs(Init(single, bits), acts, s) && s.drainer.Some? && Enabled(s, a)
    ensures s.flag.bits == s.drainer.value.bits == Apply(s, a).flag.bits
    ensures !a.TimeOut?
    ensures Apply(s, a).parked.Keys == if a.WaitCheck? then s.parked.Keys - {a.tid} else s.parked.Keys
    ensures Apply(s, a).drainer != s.drainer ==> a.CheckDrained? && s.parked == map[] && s.flag.waiting == 0
    ensures s.flag.waiting == |s.parked|
  {
    RunInv(Init(single, bits), acts, s);
    DrainingStep(s, a);
  }

  lemma DrainingStep(s: Sys, a: Action)
    requires Placed(s) && s.drainer.Some? && Enabled(s, a)
    ensures Apply(s, a).flag.bits == s.flag.bits && !a.TimeOut?
    ensures Apply(s, a).parked.Keys == if a.WaitCheck? then s.parked.Keys - {a.tid} else s.parked.Keys
    ensures Apply(s, a).drainer != s.drainer ==> a.CheckDrained? && s.parked == map[] && s.flag.waiting == 0
  {
    if a.WaitArrive? {
      ArrivalWhileDraining(s, a.tid, a.request);
    } else if s.flag.waiting == 0 {
      assert s.parked == map[];
    }
  }

  lemma ArrivalWhileDraining(s: Sys, tid: int, r: Request)
    requires Placed(s) && s.drainer.Some? && Enabled(s, WaitArrive(tid, r))
    ensures var t := Apply(s, WaitArrive(tid, r));
      t.flag.bits == s.flag.bits && t.parked.Keys == s.parked.Keys && t.drainer == s.drainer
  {
    NotParked(s.parked, tid);
  }

  /** Whether a request's bits are there: all of them or one of them, as it asks. */
  predicate Asked(bits: Word, r: Request) {
    if r.mode == And then forall b :: b in r.bits ==> b in bits else exists b :: b in r.bits && b in bits
  }

  /** What a wait returns is true of the bits it reports. */
  lemma OutcomesAreTruthful(single: bool, bits: Word, acts: seq<Action>, t: Sys, n: nat)
    requires Runs(Init(single, bits), acts, t) && n < |t.outcomes|
    ensures var o := t.outcomes[n];
      && (o.result.code == Ok ==> o.result.seen.Some? && Asked(o.result.seen.value, o.request))
      && (o.result.code == ETIMEDOUT ==> o.request.timed && o.result.seen.Some? && !Asked(o.result.seen.value, o.request))
  {
    RunInv(Init(single, bits), acts, t);
    var o := t.outcomes[n];
    if o.result.seen.Some? {
      MatchesIff(o.result.seen.value, o.request);
    }
  }

  // ---- what reaches whom ----

  /** The step carries the operation out, at its first try or a later one. */
  predicate Performs(s: Sys, a: Action, op: Op) {
    && s.flag.status == Set
    && ((a.Arrive? && a.op == op) || (a.Retry? && a.tid in s.blocked && s.blocked[a.tid] == op))
  }

  /** The operation, once nobody blocks it. */
  lemma Performed(s: Sys, a: Action, op: Op)
    requires Enabled(s, a) && Performs(s, a, op)
    ensures Apply(s, a) == Perform(if a.Retry? then Unblocked(s, a.tid) else s, a.tid, op)
  {
  }

  /**
    A set reaches whoever it is for: once it takes effect its bits are set with those that were,
    every sleeper has a notification, and a sleeper that looks next returns Ok with those bits if
    and only if they hold what it asked for. The others sleep on.
   */
  lemma SetsReachWaiters(single: bool, bits: Word, acts: seq<Action>, s: Sys, a: Action, more: Word, x: int)
    requires Runs(Init(single, bits), acts, s) && Enabled(s, a) && Performs(s, a, SetOp(more)) && x in s.parked
    ensures var t, r := Apply(s, a), s.parked[x];
      && (forall b :: b in t.flag.bits <==> b in s.flag.bits || b in more)
      && x in t.parked && t.parked[x] == r && x in t.woken && Enabled(t, WaitCheck(x))
      && (if Asked(t.flag.bits, r) then
            Apply(t, WaitCheck(x)).outcomes == t.outcomes + [Return(x, r, Result(Ok, Some(t.flag.bits)))]
          else Apply(t, WaitCheck(x)).outcomes == t.outcomes && x in Apply(t, WaitCheck(x)).parked)
  {
    RunInv(Init(single, bits), acts, s);
    Performed(s, a, SetOp(more));
    SetReaches(if a.Retry? then Unblocked(s, a.tid) else s, a.tid, more, x);
  }

  lemma SetReaches(s: Sys, tid: int, more: Word, x: int)
    requires s.flag.status == Set && s.flag.waiting == |s.parked| && x in s.parked && !s.gone
    ensures var t, r := Perform(s, tid, SetOp(more)), s.parked[x];
      && (forall b :: b in t.flag.bits <==> b in s.flag.bits || b in more)
      && x in t.parked && t.parked[x] == r && x in t.woken && Enabled(t, WaitCheck(x))
      && (if Asked(t.flag.bits, r) then
            Apply(t, WaitCheck(x)).outcomes == t.outcomes + [Return(x, r, Result(Ok, Some(t.flag.bits)))]
          else Apply(t, WaitCheck(x)).outcomes == t.outcomes && x in Apply(t, WaitCheck(x)).parked)
  {
    assert s.parked != map[];
    MatchesIff(Perform(s, tid, SetOp(more)).flag.bits, s.parked[x]);
  }

  /** Whether the step makes a wait return Ok. */
  predicate ReturnsOk(s: Sys, t: Sys) {
    |t.outcomes| == |s.outcomes| + 1 && t.outcomes[|s.outcomes|].result.code == Ok
  }

  /**
    What a step does to a bit. A set raises the bits it names, a clear drops those it does not name,
    a cancel puts its own in place, a wait that succeeds drops all of them or those it asked for, as
    it says; nothing else changes a bit.
   */
  lemma BitsChangeOnlySo(single: bool, bits: Word, acts: seq<Action>, s: Sys, a: Action, b: Bit)
    requires Runs(Init(single, bits), acts, s) && Enabled(s, a)
    ensures forall more :: Performs(s, a, SetOp(more)) ==> (b in Apply(s, a).flag.bits <==> b in s.flag.bits || b in more)
    ensures forall mask :: Performs(s, a, ClearOp(mask)) ==> (b in Apply(s, a).flag.bits <==> b in s.flag.bits && b in mask)
    ensures forall value :: Performs(s, a, CancelOp(value)) ==> (b in Apply(s, a).flag.bits <==> b in value)
    ensures ReturnsOk(s, Apply(s, a)) ==>
      var r := Apply(s, a).outcomes[|s.outcomes|].request;
      b in Apply(s, a).flag.bits <==> b in s.flag.bits && (r.clear == Keep || (r.clear == Bits && b !in r.bits))
    ensures (b in Apply(s, a).flag.bits) != (b in s.flag.bits) ==>
      || (a.Arrive? && Performs(s, a, a.op)) || (a.Retry? && Performs(s, a, s.blocked[a.tid])) || ReturnsOk(s, Apply(s, a))
  {
    RunInv(Init(single, bits), acts, s);
    match a
    case Arrive(tid, op) =>
      if s.flag.status == Set {
        OperationBits(s, tid, op, b);
      }
    case Retry(tid) =>
      if s.flag.status == Set {
        OperationBits(Unblocked(s, tid), tid, s.blocked[tid], b);
      }
    case CheckDrained =>
    case WaitArrive(tid, r) => WaitBits(s, a, b);
    case WaitCheck(tid) => WaitBits(s, a, b);
    case TimeOut(tid) => WaitBits(s, a, b);
  }

  lemma OperationBits(s: Sys, tid: int, op: Op, b: Bit)
    ensures Perform(s, tid, op).outcomes == s.outcomes
    ensures b in Perform(s, tid, op).flag.bits <==>
      match op
      case SetOp(more) => b in s.flag.bits || b in more
      case ClearOp(mask) => b in s.flag.bits && b in mask
      case CancelOp(value) => b in value
      case DeleteOp => b in s.flag.bits
  {
  }

  lemma WaitBits(s: Sys, a: Action, b: Bit)
    requires Enabled(s, a) && (a.WaitArrive? || a.WaitCheck? || a.TimeOut?)
    ensures var t := Apply(s, a);
      if ReturnsOk(s, t) then
        var r := t.outcomes[|s.outcomes|].request;
        b in t.flag.bits <==> b in s.flag.bits && (r.clear == Keep || (r.clear == Bits && b !in r.bits))
      else t.flag.bits == s.flag.bits
  {
  }

  /**
    What a wait comes to when it arrives: refused exactly on a single-thread flag with somebody
    waiting, otherwise answered at once if the flag is being drained or holds what it asks for, and
    else parked.
   */
  lemma WaitsAreAnsweredIff(single: bool, bits: Word, acts: seq<Action>, s: Sys, tid: int, r: Request)
    requires Runs(Init(single, bits), acts, s) && Enabled(s, WaitArrive(tid, r))
    ensures var t := Apply(s, WaitArrive(tid, r));
      if single && s.parked != map[] then
        t.outcomes == s.outcomes + [Return(tid, r, Result(EPERM, None))] && t.flag == s.flag && t.parked == s.parked
      else if s.flag.status == Set && !Asked(s.flag.bits, r) then
        t.outcomes == s.outcomes && t.flag.bits == s.flag.bits && t.parked == s.parked[tid := r]
      else
        && t.parked == s.parked
        && t.outcomes == s.outcomes + [Return(tid, r, Result(
             match s.flag.status { case Set => Ok case Canceled => ECANCELED case Deleted => EINTR }, Some(s.flag.bits)))]
  {
    RunInv(Init(single, bits), acts, s);
    SingleStays(Init(single, bits), acts, s);
    MatchesIff(s.flag.bits, r);
    NotParked(s.parked, tid);
    if s.parked != map[] {
      assert s.parked.Keys != {};
    }
  }

  lemma {:induction false} SingleStays(s: Sys, acts: seq<Action>, t: Sys)
    requires Runs(s, acts, t)
    ensures t.flag.single == s.flag.single
    decreases |acts|
  {
    if acts != [] {
      SingleStep(s, acts[0]);
      SingleStays(Apply(s, acts[0]), acts[1..], t);
    }
  }

  lemma SingleStep(s: Sys, a: Action)
    requires Enabled(s, a)
    ensures Apply(s, a).flag.single == s.flag.single
  {
    match a
    case Arrive(tid, op) => PerformSingle(s, tid, op);
    case Retry(tid) => PerformSingle(Unblocked(s, tid), tid, s.blocked[tid]);
    case CheckDrained =>
    case WaitArrive(tid, r) =>
    case WaitCheck(tid) =>
    case TimeOut(tid) =>
  }

  lemma PerformSingle(s: Sys, tid: int, op: Op)
    ensures Perform(s, tid, op).flag.single == s.flag.single
  {
  }
}
