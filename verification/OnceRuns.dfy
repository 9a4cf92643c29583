/**
  Any number of threads calling `once` of core/kernel/pthread.cpp on one control block that
  starts out as zeros. A step is one unlocked read or write of the control block, one lock
  operation, or the begin or end of the init routine, which does not call `once` on this block.
 */
module OnceRuns {
  import opened Words

  datatype Pc =
    | Idle
    | Entered                  // about to read the mutex pointer
    | WantCreation             // it was null: about to lock the static mutex
    | Creating                 // about to look again and create
    | Created                  // about to unlock the static mutex
    | Checked                  // about to read the pointer and lock through it
    | Locking(id: nat)
    | Holding(id: nat)         // about to read isInit
    | Running(id: nat)         // in the init routine
    | Ran(id: nat)             // about to write isInit
    | Leaving(id: nat)         // about to unlock

  /**
    `mutex` is the pointer in the control block, `created` the number of mutexes made for it,
    `owners` who holds which of them. `started` and `finished` count runs of the init routine,
    `locked` lists the mutex each lock went to and `returned` the value of `finished` at each
    return.
   */
  datatype Sys = Sys(
    mutex: Option<nat>,
    created: nat,
    creator: Option<int>,
    owners: map<nat, int>,
    isInit: bool,
    started: nat,
    finished: nat,
    pcs: map<int, Pc>,
    locked: seq<nat>,
    returned: seq<nat>)

  datatype Action =
    | Call(tid: int)
    | ReadPointer(tid: int)
    | LockCreation(tid: int)
    | CreateIfNull(tid: int)
    | UnlockCreation(tid: int)
    | ReadAgain(tid: int)
    | Lock(tid: int)
    | TestInit(tid: int)
    | EndRoutine(tid: int)
    | SetInit(tid: int)
    | Unlock(tid: int)

  function Init(): Sys {
    Sys(None, 0, None, map[], false, 0, 0, map[], [], [])
  }

  function PcOf(s: Sys, tid: int): Pc {
    if tid in s.pcs then s.pcs[tid] else Idle
  }

  predicate Enabled(s: Sys, a: Action) {
    var pc := PcOf(s, a.tid);
    match a
    case Call(_) => pc.Idle?
    case ReadPointer(_) => pc.Entered?
    case LockCreation(_) => pc.WantCreation? && s.creator.None?
    case CreateIfNull(_) => pc.Creating?
    case UnlockCreation(_) => pc.Created?
    case ReadAgain(_) => pc.Checked? && s.mutex.Some?
    case Lock(_) => pc.Locking? && pc.id !in s.owners
    case TestInit(_) => pc.Holding?
    case EndRoutine(_) => pc.Running?
    case SetInit(_) => pc.Ran?
    case Unlock(_) => pc.Leaving? && s.mutex.Some?
  }

  function Apply(s: Sys, a: Action): Sys
    requires Enabled(s, a)
  {
    var tid, pc := a.tid, PcOf(s, a.tid);
    match a
    case Call(_) => s.(pcs := s.pcs[tid := Entered])
    case ReadPointer(_) => s.(pcs := s.pcs[tid := if s.mutex.None? then WantCreation else Checked])
    case LockCreation(_) => s.(creator := Some(tid), pcs := s.pcs[tid := Creating])
    case CreateIfNull(_) =>
      var t := s.(pcs := s.pcs[tid := Created]);
      if s.mutex.None? then t.(mutex := Some(s.created), created := s.created + 1) else t
    case UnlockCreation(_) => s.(creator := None, pcs := s.pcs[tid := Checked])
    case ReadAgain(_) => s.(pcs := s.pcs[tid := Locking(s.mutex.value)])
    case Lock(_) => s.(owners := s.owners[pc.id := tid], locked := s.locked + [pc.id], pcs := s.pcs[tid := Holding(pc.id)])
    case TestInit(_) =>
      if s.isInit then s.(pcs := s.pcs[tid := Leaving(pc.id)])
      else s.(pcs := s.pcs[tid := Running(pc.id)], started := s.started + 1)
    case EndRoutine(_) => s.(pcs := s.pcs[tid := Ran(pc.id)], finished := s.finished + 1)
    case SetInit(_) => s.(pcs := s.pcs[tid := Leaving(pc.id)], isInit := true)
    case Unlock(_) =>
      // mutexUnlock follows the pointer once more and refuses a caller that does not own the mutex
      var id := s.mutex.value;
      var t := s.(pcs := s.pcs[tid := Idle], returned := s.returned + [s.finished]);
      if id in s.owners && s.owners[id] == tid then t.(owners := s.owners - {id}) else t
  }

  ghost predicate Runs(s: Sys, acts: seq<Action>, t: Sys)
    decreases |acts|
  {
    if acts == [] then s == t else Enabled(s, acts[0]) && Runs(Apply(s, acts[0]), acts[1..], t)
  }

  // ---- invariants ----

  predicate Past(pc: Pc) {
    pc.Created? || pc.Checked? || pc.Locking? || Holds(pc)
  }

  predicate Holds(pc: Pc) {
    pc.Holding? || pc.Running? || pc.Ran? || pc.Leaving?
  }

  /** One mutex at most, made under the static mutex, and everybody's. */
  predicate OneMutex(s: Sys) {
    && s.created == (if s.mutex.Some? then 1 else 0)
    && (s.mutex.Some? ==> s.mutex.value == 0)
    && (forall tid :: tid in s.pcs ==>
          && ((s.pcs[tid].Creating? || s.pcs[tid].Created?) <==> s.creator == Some(tid))
          && (Past(s.pcs[tid]) ==> s.mutex.Some?)
          && (s.pcs[tid].Locking? || Holds(s.pcs[tid]) ==> s.pcs[tid].id == 0))
    && (s.creator.Some? ==> s.creator.value in s.pcs)
    && (forall i :: 0 <= i < |s.locked| ==> s.locked[i] == 0)
  }

  predicate Owned(s: Sys) {
    && (forall id :: id in s.owners ==> id == 0)
    && (0 in s.owners ==> s.owners[0] in s.pcs && Holds(s.pcs[s.owners[0]]))
    && (forall tid :: tid in s.pcs && Holds(s.pcs[tid]) ==> 0 in s.owners && s.owners[0] == tid)
  }

  /** How far the init routine has come, as the holder's place tells. */
  predicate Progress(s: Sys) {
    var pc := if 0 in s.owners then PcOf(s, s.owners[0]) else Idle;
    && s.started == (if s.isInit || pc.Running? || pc.Ran? then 1 else 0)
    && s.finished == (if s.isInit || pc.Ran? then 1 else 0)
    && (s.isInit ==> !pc.Running? && !pc.Ran?)
    && (pc.Leaving? ==> s.isInit)
    && (forall i :: 0 <= i < |s.returned| ==> s.returned[i] == 1)
  }

  predicate Inv(s: Sys) {
    OneMutex(s) && Owned(s) && Progress(s)
  }

  predicate Creates(a: Action) {
    a.Call? || a.ReadPointer? || a.LockCreation? || a.CreateIfNull? || a.UnlockCreation?
  }

  lemma CreationOneMutex(s: Sys, a: Action)
    requires OneMutex(s) && Enabled(s, a) && (a.LockCreation? || a.CreateIfNull? || a.UnlockCreation?)
    ensures OneMutex(Apply(s, a))
  {
  }

  lemma EntryOneMutex(s: Sys, a: Action)
    requires OneMutex(s) && Enabled(s, a) && (a.Call? || a.ReadPointer?)
    ensures OneMutex(Apply(s, a))
  {
  }

  lemma LockOneMutex(s: Sys, a: Action)
    requires OneMutex(s) && Enabled(s, a) && (a.ReadAgain? || a.Lock? || a.TestInit?)
    ensures OneMutex(Apply(s, a))
  {
  }

  lemma RoutineOneMutex(s: Sys, a: Action)
    requires OneMutex(s) && Enabled(s, a) && (a.EndRoutine? || a.SetInit? || a.Unlock?)
    ensures OneMutex(Apply(s, a))
  {
  }

  lemma StepOneMutex(s: Sys, a: Action)
    requires OneMutex(s) && Enabled(s, a)
    ensures OneMutex(Apply(s, a))
  {
    if a.Call? || a.ReadPointer? {
      EntryOneMutex(s, a);
    } else if Creates(a) {
      CreationOneMutex(s, a);
    } else if a.ReadAgain? || a.Lock? || a.TestInit? {
      LockOneMutex(s, a);
    } else {
      RoutineOneMutex(s, a);
    }
  }

  lemma CreationOwned(s: Sys, a: Action)
    requires OneMutex(s) && Owned(s) && Enabled(s, a) && Creates(a)
    ensures Owned(Apply(s, a))
  {
    assert a.tid in s.pcs || a.Call?;
  }

  lemma RoutineOwned(s: Sys, a: Action)
    requires OneMutex(s) && Owned(s) && Enabled(s, a) && !Creates(a)
    ensures Owned(Apply(s, a))
  {
    assert a.tid in s.pcs;
  }

  lemma StepOwned(s: Sys, a: Action)
    requires OneMutex(s) && Owned(s) && Enabled(s, a)
    ensures Owned(Apply(s, a))
  {
    if Creates(a) {
      CreationOwned(s, a);
    } else {
      RoutineOwned(s, a);
    }
  }

  lemma CreationProgress(s: Sys, a: Action)
    requires Inv(s) && Enabled(s, a) && Creates(a)
    ensures Progress(Apply(s, a))
  {
    assert a.tid in s.pcs || a.Call?;
  }

  lemma RoutineProgress(s: Sys, a: Action)
    requires Inv(s) && Enabled(s, a) && !Creates(a)
    ensures Progress(Apply(s, a))
  {
    assert a.tid in s.pcs;
  }

  lemma StepProgress(s: Sys, a: Action)
    requires Inv(s) && Enabled(s, a)
    ensures Progress(Apply(s, a))
  {
    if Creates(a) {
      CreationProgress(s, a);
    } else {
      RoutineProgress(s, a);
    }
  }

  lemma {:induction false} RunInv(s: Sys, acts: seq<Action>, t: Sys)
    requires Inv(s) && Runs(s, acts, t)
    ensures Inv(t)
    decreases |acts|
  {
    if acts != [] {
      StepOneMutex(s, acts[0]);
      StepOwned(s, acts[0]);
      StepProgress(s, acts[0]);
      RunInv(Apply(s, acts[0]), acts[1..], t);
    }
  }

  // ---- theorems ----

  /**
    Over any run the control block gets at most one mutex and every lock goes to it; the init
    routine is begun at most once; and a call that returned did so after the routine had
    finished, so then it has run exactly once.
   */
  lemma RoutineRunsExactlyOnce(acts: seq<Action>, t: Sys)
    requires Runs(Init(), acts, t)
    ensures t.created <= 1
    ensures forall i, j :: 0 <= i < j < |t.locked| ==> t.locked[i] == t.locked[j]
    ensures t.finished <= t.started <= 1
    ensures forall i :: 0 <= i < |t.returned| ==> t.returned[i] == 1
    ensures t.returned != [] ==> t.started == t.finished == 1
  {
    RunInv(Init(), acts, t);
    ReturnedFinished(Init(), acts, t);
  }

  lemma {:induction false} ReturnedFinished(s: Sys, acts: seq<Action>, t: Sys)
    requires Inv(s) && Runs(s, acts, t) && (s.returned != [] ==> s.finished >= 1)
    ensures t.returned != [] ==> t.finished >= 1
    decreases |acts|
  {
    if acts != [] {
      var u := Apply(s, acts[0]);
      StepOneMutex(s, acts[0]);
      StepOwned(s, acts[0]);
      StepProgress(s, acts[0]);
      if acts[0].Unlock? {
        assert u.returned[|s.returned|] == s.finished;
      }
      ReturnedFinished(u, acts[1..], t);
    }
  }

  /** While the routine runs, nobody else is between its lock and its unlock. */
  lemma RoutineRunsAlone(acts: seq<Action>, t: Sys, x: int, y: int)
    requires Runs(Init(), acts, t) && x in t.pcs && y in t.pcs
    requires Holds(t.pcs[x]) && Holds(t.pcs[y])
    ensures x == y
  {
    RunInv(Init(), acts, t);
  }

  /** What a thread does next, other than calling. */
  function Next(s: Sys, tid: int): Action {
    match PcOf(s, tid)
    case Idle => Call(tid)
    case Entered => ReadPointer(tid)
    case WantCreation => LockCreation(tid)
    case Creating => CreateIfNull(tid)
    case Created => UnlockCreation(tid)
    case Checked => ReadAgain(tid)
    case Locking(_) => Lock(tid)
    case Holding(_) => TestInit(tid)
    case Running(_) => EndRoutine(tid)
    case Ran(_) => SetInit(tid)
    case Leaving(_) => Unlock(tid)
  }

  lemma NextIsEnabled(s: Sys, tid: int)
    requires OneMutex(s)
    requires PcOf(s, tid).WantCreation? ==> s.creator.None?
    requires PcOf(s, tid).Locking? ==> 0 !in s.owners
    ensures Enabled(s, Next(s, tid))
  {
  }

  /**
    Nobody is stuck and no null pointer is followed: a thread that cannot take its next step
    waits for one of the two mutexes, and that mutex's holder can.
   */
  lemma CallersAreNotStuck(acts: seq<Action>, t: Sys, tid: int)
    requires Runs(Init(), acts, t)
    ensures !Enabled(t, Next(t, tid)) ==>
      || (PcOf(t, tid).WantCreation? && t.creator.Some? && Enabled(t, Next(t, t.creator.value)))
      || (PcOf(t, tid).Locking? && 0 in t.owners && Enabled(t, Next(t, t.owners[0])))
  {
    RunInv(Init(), acts, t);
    if PcOf(t, tid).WantCreation? && t.creator.Some? {
      NextIsEnabled(t, t.creator.value);
    } else if PcOf(t, tid).Locking? && 0 in t.owners {
      NextIsEnabled(t, t.owners[0]);
    } else {
      NextIsEnabled(t, tid);
    }
  }
}
