/**
  Any number of threads using any number of one-time construction guards, as in
  modules/libSceLibcInternal/entry.cpp, which serves the One-time Construction API of section
  3.3 of the Itanium C++ ABI. All guards share one recursive mutex. A step is one unlocked read
  or write of a guard or one operation on the mutex; an initialiser does not enter its own guard
  again, but it may enter others.
 */
module GuardRuns {
  import opened Words

  /** A guard's two flags. */
  datatype Guard = Guard(initHasRun: bool, inUse: bool)

  datatype Pc =
    | Outside            // in user code, perhaps inside initialisers
    | Tested(g: nat)     // acquire read initHasRun as false, about to lock
    | Owning(g: nat)     // acquire holds the mutex, about to read initHasRun again
    | Dropping(g: nat)   // acquire found the work done, about to unlock
    | Releasing(g: nat)  // release has written initHasRun, about to unlock
    | Aborting(g: nat)   // abort has unlocked, about to clear inUse

  /**
    `open` holds the guards whose initialiser the thread is running. `completions` counts the
    calls of release per guard, `skips` lists for every 0 returned by acquire how often the guard
    had been completed by then.
   */
  datatype Sys = Sys(
    guards: map<nat, Guard>,
    owner: Option<int>,
    depth: nat,
    pcs: map<int, Pc>,
    open: map<int, set<nat>>,
    completions: map<nat, nat>,
    skips: seq<nat>)

  datatype Action =
    | Acquire(tid: int, g: nat)   // the first read of initHasRun
    | Lock(tid: int)
    | Recheck(tid: int)
    | Drop(tid: int)
    | Release(tid: int, g: nat)
    | Unlock(tid: int)
    | Abort(tid: int, g: nat)
    | ClearInUse(tid: int)

  function Init(): Sys {
    Sys(map[], None, 0, map[], map[], map[], [])
  }

  function GuardOf(s: Sys, g: nat): Guard {
    if g in s.guards then s.guards[g] else Guard(false, false)
  }

  function PcOf(s: Sys, tid: int): Pc {
    if tid in s.pcs then s.pcs[tid] else Outside
  }

  function OpenOf(s: Sys, tid: int): set<nat> {
    if tid in s.open then s.open[tid] else {}
  }

  function Completions(s: Sys, g: nat): nat {
    if g in s.completions then s.completions[g] else 0
  }

  predicate Enabled(s: Sys, a: Action) {
    var pc := PcOf(s, a.tid);
    match a
    case Acquire(tid, g) => pc.Outside? && g !in OpenOf(s, tid)
    case Lock(tid) => pc.Tested? && (s.owner == None || s.owner == Some(tid))
    case Recheck(_) => pc.Owning?
    case Drop(_) => pc.Dropping? && s.depth > 0
    case Release(tid, g) => pc.Outside? && g in OpenOf(s, tid)
    case Unlock(_) => pc.Releasing? && s.depth > 0
    case Abort(tid, g) => pc.Outside? && g in OpenOf(s, tid) && s.depth > 0
    case ClearInUse(_) => pc.Aborting?
  }

  function Unlocked(s: Sys): Sys
    requires s.depth > 0
  {
    s.(depth := s.depth - 1, owner := if s.depth == 1 then None else s.owner)
  }

  function Apply(s: Sys, a: Action): Sys
    requires Enabled(s, a)
  {
    var tid, pc := a.tid, PcOf(s, a.tid);
    match a
    case Acquire(_, g) =>
      if GuardOf(s, g).initHasRun then s.(skips := s.skips + [Completions(s, g)])
      else s.(pcs := s.pcs[tid := Tested(g)])
    case Lock(_) => s.(owner := Some(tid), depth := s.depth + 1, pcs := s.pcs[tid := Owning(pc.g)])
    case Recheck(_) =>
      if GuardOf(s, pc.g).initHasRun then s.(pcs := s.pcs[tid := Dropping(pc.g)])
      else s.(guards := s.guards[pc.g := GuardOf(s, pc.g).(inUse := true)],
              open := s.open[tid := OpenOf(s, tid) + {pc.g}], pcs := s.pcs[tid := Outside])
    case Drop(_) => Unlocked(s).(pcs := s.pcs[tid := Outside], skips := s.skips + [Completions(s, pc.g)])
    case Release(_, g) =>
      s.(guards := s.guards[g := GuardOf(s, g).(initHasRun := true)], completions := s.completions[g := Completions(s, g) + 1],
         open := s.open[tid := OpenOf(s, tid) - {g}], pcs := s.pcs[tid := Releasing(g)])
    case Unlock(_) => Unlocked(s).(pcs := s.pcs[tid := Outside])
    case Abort(_, g) => Unlocked(s).(open := s.open[tid := OpenOf(s, tid) - {g}], pcs := s.pcs[tid := Aborting(g)])
    case ClearInUse(_) =>
      s.(guards := s.guards[pc.g := GuardOf(s, pc.g).(inUse := false)], pcs := s.pcs[tid := Outside])
  }

  ghost predicate Runs(s: Sys, acts: seq<Action>, t: Sys)
    decreases |acts|
  {
    if acts == [] then s == t else Enabled(s, acts[0]) && Runs(Apply(s, acts[0]), acts[1..], t)
  }

  // ---- invariants ----

  /** Whether the thread is at a place where it has locked once more than its initialisers tell. */
  predicate Extra(pc: Pc) {
    pc.Owning? || pc.Dropping? || pc.Releasing?
  }

  /** The mutex is held by the one thread that runs initialisers, as deep as there are of them. */
  ghost predicate Locked(s: Sys) {
    && (s.owner.None? <==> s.depth == 0)
    && (s.owner.Some? ==> s.depth == |OpenOf(s, s.owner.value)| + if Extra(PcOf(s, s.owner.value)) then 1 else 0)
    && (forall tid :: s.owner != Some(tid) ==> OpenOf(s, tid) == {} && !Extra(PcOf(s, tid)))
  }

  ghost predicate Counted(s: Sys) {
    && (forall g :: Completions(s, g) == if GuardOf(s, g).initHasRun then 1 else 0)
    && (forall tid, g :: g in OpenOf(s, tid) ==> !GuardOf(s, g).initHasRun)
    && (forall tid :: PcOf(s, tid).Dropping? ==> GuardOf(s, PcOf(s, tid).g).initHasRun)
    && (forall tid :: PcOf(s, tid).Owning? || PcOf(s, tid).Tested? ==> PcOf(s, tid).g !in OpenOf(s, tid))
    && (forall i :: 0 <= i < |s.skips| ==> s.skips[i] == 1)
  }

  ghost predicate Inv(s: Sys) {
    Locked(s) && Counted(s)
  }

  /** What a step leaves as it was. */
  lemma Frame(s: Sys, a: Action)
    requires Enabled(s, a)
    ensures forall tid :: tid != a.tid ==> PcOf(Apply(s, a), tid) == PcOf(s, tid) && OpenOf(Apply(s, a), tid) == OpenOf(s, tid)
    ensures forall g :: a != Release(a.tid, g) ==>
      Completions(Apply(s, a), g) == Completions(s, g) && GuardOf(Apply(s, a), g).initHasRun == GuardOf(s, g).initHasRun
  {
    var t := Apply(s, a);
    forall tid | tid != a.tid ensures PcOf(t, tid) == PcOf(s, tid) && OpenOf(t, tid) == OpenOf(s, tid) {
      OthersStay(s, a, tid);
    }
    forall g | a != Release(a.tid, g)
      ensures Completions(t, g) == Completions(s, g) && GuardOf(t, g).initHasRun == GuardOf(s, g).initHasRun
    {
      GuardStays(s, a, g);
    }
  }

  lemma OthersStay(s: Sys, a: Action, tid: int)
    requires Enabled(s, a) && tid != a.tid
    ensures PcOf(Apply(s, a), tid) == PcOf(s, tid) && OpenOf(Apply(s, a), tid) == OpenOf(s, tid)
  {
  }

  lemma GuardStays(s: Sys, a: Action, g: nat)
    requires Enabled(s, a) && a != Release(a.tid, g)
    ensures Completions(Apply(s, a), g) == Completions(s, g) && GuardOf(Apply(s, a), g).initHasRun == GuardOf(s, g).initHasRun
  {
  }

  lemma LockLocked(s: Sys, tid: int)
    requires Inv(s) && Enabled(s, Lock(tid))
    ensures Locked(Apply(s, Lock(tid)))
  {
    Frame(s, Lock(tid));
  }

  lemma OpenLocked(s: Sys, tid: int)
    requires Inv(s) && Enabled(s, Recheck(tid))
    ensures Locked(Apply(s, Recheck(tid)))
  {
    Frame(s, Recheck(tid));
  }

  lemma CloseLocked(s: Sys, a: Action)
    requires Inv(s) && Enabled(s, a) && (a.Release? || a.Abort?)
    ensures Locked(Apply(s, a))
  {
    Frame(s, a);
    var t := Apply(s, a);
    assert s.owner == Some(a.tid);
    assert OpenOf(t, a.tid) == OpenOf(s, a.tid) - {a.g};
    assert |OpenOf(t, a.tid)| == |OpenOf(s, a.tid)| - 1;
    Emptied(OpenOf(t, a.tid));
  }

  lemma Emptied(gs: set<nat>)
    ensures gs == {} <==> |gs| == 0
  {
  }

  lemma DropLocked(s: Sys, a: Action)
    requires Inv(s) && Enabled(s, a) && (a.Drop? || a.Unlock?)
    ensures Locked(Apply(s, a))
  {
    Frame(s, a);
    assert s.owner == Some(a.tid);
    assert OpenOf(Apply(s, a), a.tid) == OpenOf(s, a.tid);
    Emptied(OpenOf(s, a.tid));
  }

  lemma StepLocked(s: Sys, a: Action)
    requires Inv(s) && Enabled(s, a)
    ensures Locked(Apply(s, a))
  {
    match a
    case Acquire(tid, g) => Frame(s, a);
    case Lock(tid) => LockLocked(s, tid);
    case Recheck(tid) => OpenLocked(s, tid);
    case Drop(tid) => DropLocked(s, a);
    case Release(tid, g) => CloseLocked(s, a);
    case Unlock(tid) => DropLocked(s, a);
    case Abort(tid, g) => CloseLocked(s, a);
    case ClearInUse(tid) => Frame(s, a);
  }

  lemma ReleaseCounted(s: Sys, tid: int, g: nat)
    requires Inv(s) && Enabled(s, Release(tid, g))
    ensures Counted(Apply(s, Release(tid, g)))
  {
    Frame(s, Release(tid, g));
    assert !GuardOf(s, g).initHasRun;
  }

  lemma AcquireCounted(s: Sys, tid: int, g: nat)
    requires Inv(s) && Enabled(s, Acquire(tid, g))
    ensures Counted(Apply(s, Acquire(tid, g)))
  {
    Frame(s, Acquire(tid, g));
  }

  lemma LockCounted(s: Sys, tid: int)
    requires Inv(s) && Enabled(s, Lock(tid))
    ensures Counted(Apply(s, Lock(tid)))
  {
    Frame(s, Lock(tid));
  }

  lemma RecheckCounted(s: Sys, tid: int)
    requires Inv(s) && Enabled(s, Recheck(tid))
    ensures Counted(Apply(s, Recheck(tid)))
  {
    Frame(s, Recheck(tid));
  }

  lemma LeaveCounted(s: Sys, a: Action)
    requires Inv(s) && Enabled(s, a) && (a.Drop? || a.Unlock? || a.Abort? || a.ClearInUse?)
    ensures Counted(Apply(s, a))
  {
    Frame(s, a);
  }

  lemma StepCounted(s: Sys, a: Action)
    requires Inv(s) && Enabled(s, a)
    ensures Counted(Apply(s, a))
  {
    match a
    case Acquire(tid, g) => AcquireCounted(s, tid, g);
    case Lock(tid) => LockCounted(s, tid);
    case Recheck(tid) => RecheckCounted(s, tid);
    case Release(tid, g) => ReleaseCounted(s, tid, g);
    case Drop(_) => LeaveCounted(s, a);
    case Unlock(_) => LeaveCounted(s, a);
    case Abort(_, _) => LeaveCounted(s, a);
    case ClearInUse(_) => LeaveCounted(s, a);
  }

  lemma {:induction false} RunInv(s: Sys, acts: seq<Action>, t: Sys)
    requires Inv(s) && Runs(s, acts, t)
    ensures Inv(t)
    decreases |acts|
  {
    if acts != [] {
      StepLocked(s, acts[0]);
      StepCounted(s, acts[0]);
      RunInv(Apply(s, acts[0]), acts[1..], t);
    }
  }

  // ---- theorems ----

  /**
    All initialisers in progress belong to one thread, which holds the mutex as often as there
    are of them, plus once while it is between a lock or a completion and the matching return.
   */
  lemma InitialisersBelongToOneThread(acts: seq<Action>, t: Sys, x: int)
    requires Runs(Init(), acts, t)
    ensures OpenOf(t, x) != {} ==> t.owner == Some(x)
    ensures t.owner == Some(x) ==> t.depth == |OpenOf(t, x)| + if Extra(PcOf(t, x)) then 1 else 0
    ensures t.owner.None? ==> t.depth == 0
  {
    RunInv(Init(), acts, t);
  }

  /**
    Every guard completes at most once, its flag says whether it has, no initialiser runs for a
    completed guard, and acquire answers 0 only for a completed guard.
   */
  lemma GuardsCompleteOnce(acts: seq<Action>, t: Sys, g: nat)
    requires Runs(Init(), acts, t)
    ensures Completions(t, g) == if GuardOf(t, g).initHasRun then 1 else 0
    ensures forall x, y :: g in OpenOf(t, x) && g in OpenOf(t, y) ==> x == y && Completions(t, g) == 0
    ensures forall i :: 0 <= i < |t.skips| ==> t.skips[i] == 1
  {
    RunInv(Init(), acts, t);
  }

  // ---- the inUse flag ----

  predicate OpenByOwner(s: Sys, g: nat) {
    s.owner.Some? && g in OpenOf(s, s.owner.value)
  }

  ghost predicate InUseExact(s: Sys, g: nat) {
    && (GuardOf(s, g).inUse <==> GuardOf(s, g).initHasRun || OpenByOwner(s, g))
    && (forall tid :: PcOf(s, tid).Aborting? ==> PcOf(s, tid).g != g)
  }

  lemma StepInUse(s: Sys, a: Action, g: nat)
    requires Inv(s) && InUseExact(s, g) && Enabled(s, a) && !(a.Abort? && a.g == g)
    ensures InUseExact(Apply(s, a), g)
  {
    Frame(s, a);
    match a
    case Acquire(tid, h) =>
    case Lock(tid) => LockInUse(s, tid, g);
    case Recheck(tid) => RecheckInUse(s, tid, g);
    case Drop(tid) => UnlockInUse(s, a, g);
    case Release(tid, h) => ReleaseInUse(s, tid, h, g);
    case Unlock(tid) => UnlockInUse(s, a, g);
    case Abort(tid, h) => AbortInUse(s, tid, h, g);
    case ClearInUse(tid) =>
  }

  lemma LockInUse(s: Sys, tid: int, g: nat)
    requires Inv(s) && InUseExact(s, g) && Enabled(s, Lock(tid))
    ensures InUseExact(Apply(s, Lock(tid)), g)
  {
    Frame(s, Lock(tid));
  }

  lemma RecheckInUse(s: Sys, tid: int, g: nat)
    requires Inv(s) && InUseExact(s, g) && Enabled(s, Recheck(tid))
    ensures InUseExact(Apply(s, Recheck(tid)), g)
  {
    var h, t := PcOf(s, tid).g, Apply(s, Recheck(tid));
    Frame(s, Recheck(tid));
    assert s.owner == t.owner == Some(tid);
    if GuardOf(s, h).initHasRun {
      assert GuardOf(t, g) == GuardOf(s, g) && OpenOf(t, tid) == OpenOf(s, tid);
    } else {
      assert GuardOf(t, g) == if g == h then GuardOf(s, g).(inUse := true) else GuardOf(s, g);
      assert OpenOf(t, tid) == OpenOf(s, tid) + {h};
    }
  }

  lemma UnlockInUse(s: Sys, a: Action, g: nat)
    requires Inv(s) && InUseExact(s, g) && Enabled(s, a) && (a.Drop? || a.Unlock?)
    ensures InUseExact(Apply(s, a), g)
  {
    Frame(s, a);
    assert s.owner == Some(a.tid);
    Emptied(OpenOf(s, a.tid));
  }

  lemma ReleaseInUse(s: Sys, tid: int, h: nat, g: nat)
    requires Inv(s) && InUseExact(s, g) && Enabled(s, Release(tid, h))
    ensures InUseExact(Apply(s, Release(tid, h)), g)
  {
    Frame(s, Release(tid, h));
    assert s.owner == Some(tid);
  }

  lemma AbortInUse(s: Sys, tid: int, h: nat, g: nat)
    requires Inv(s) && InUseExact(s, g) && Enabled(s, Abort(tid, h)) && h != g
    ensures InUseExact(Apply(s, Abort(tid, h)), g)
  {
    Frame(s, Abort(tid, h));
    assert s.owner == Some(tid);
    assert OpenOf(s, tid) == (OpenOf(s, tid) - {h}) + {h};
    Emptied(OpenOf(s, tid) - {h});
  }

  /** The flag says that the guard is being or has been initialised. */
  ghost predicate InUseRight(s: Sys, g: nat) {
    GuardOf(s, g).inUse <==> GuardOf(s, g).initHasRun || exists tid :: g in OpenOf(s, tid)
  }

  lemma OpenIsByOwner(s: Sys, g: nat)
    requires Locked(s)
    ensures OpenByOwner(s, g) <==> exists tid :: g in OpenOf(s, tid)
  {
    if OpenByOwner(s, g) {
      assert g in OpenOf(s, s.owner.value);
    }
  }

  /** The flag is right in every state the steps pass through. */
  ghost predicate RightAlong(s: Sys, acts: seq<Action>, g: nat)
    decreases |acts|
  {
    InUseRight(s, g) && (acts != [] && Enabled(s, acts[0]) ==> RightAlong(Apply(s, acts[0]), acts[1..], g))
  }

  ghost predicate NobodyAborts(acts: seq<Action>, g: nat) {
    forall i :: 0 <= i < |acts| && acts[i].Abort? ==> acts[i].g != g
  }

  lemma NobodyAbortsTail(acts: seq<Action>, g: nat)
    requires acts != []
    ensures NobodyAborts(acts, g) <==> !(acts[0].Abort? && acts[0].g == g) && NobodyAborts(acts[1..], g)
  {
    if NobodyAborts(acts[1..], g) {
      forall i | 1 <= i < |acts| && acts[i].Abort? ensures acts[i].g != g {
        assert acts[1..][i - 1] == acts[i];
      }
    }
  }

  /** Between its unlock and its late write an abort leaves the flag up for a guard nobody has open. */
  lemma AbortBreaks(s: Sys, tid: int, g: nat)
    requires Inv(s) && InUseExact(s, g) && Enabled(s, Abort(tid, g))
    ensures !InUseRight(Apply(s, Abort(tid, g)), g)
  {
    var t := Apply(s, Abort(tid, g));
    Frame(s, Abort(tid, g));
    assert s.owner == Some(tid) && OpenByOwner(s, g) && !GuardOf(s, g).initHasRun;
    forall u ensures g !in OpenOf(t, u) {
      assert u != tid ==> OpenOf(s, u) == {};
    }
  }

  lemma {:induction false} RightAlongIff(s: Sys, acts: seq<Action>, t: Sys, g: nat)
    requires Inv(s) && InUseExact(s, g) && Runs(s, acts, t)
    ensures RightAlong(s, acts, g) <==> NobodyAborts(acts, g)
    decreases |acts|
  {
    OpenIsByOwner(s, g);
    if acts != [] {
      var a := acts[0];
      NobodyAbortsTail(acts, g);
      if a.Abort? && a.g == g {
        AbortBreaks(s, a.tid, g);
      } else {
        StepInUse(s, a, g);
        StepLocked(s, a);
        StepCounted(s, a);
        RightAlongIff(Apply(s, a), acts[1..], t, g);
      }
    }
  }

  /**
    `inUse` says at every point of a run that the guard is being or has been initialised if and
    only if nobody aborts the guard in that run.
   */
  lemma InUseIsExactIff(acts: seq<Action>, t: Sys, g: nat)
    requires Runs(Init(), acts, t)
    ensures RightAlong(Init(), acts, g) <==> forall i :: 0 <= i < |acts| && acts[i].Abort? ==> acts[i].g != g
  {
    RightAlongIff(Init(), acts, t, g);
  }

  lemma Prepend(s: Sys, a: Action, t: Sys, acts: seq<Action>, u: Sys) returns (longer: seq<Action>)
    requires Enabled(s, a) && t == Apply(s, a) && Runs(t, acts, u)
    ensures Runs(s, longer, u)
  {
    longer := [a] + acts;
    assert longer[1..] == acts;
  }

  /** One thread has opened guard 0 and given up; it has unlocked but not yet cleared the flag. */
  function GivenUp(): Sys {
    Sys(map[0 := Guard(false, true)], None, 0, map[1 := Aborting(0)], map[1 := {}], map[], [])
  }

  lemma SecondOpens() returns (acts: seq<Action>, t: Sys)
    ensures Runs(GivenUp(), acts, t) && 0 in OpenOf(t, 2) && !GuardOf(t, 0).inUse
  {
    var s0 := GivenUp();
    var s1 := Apply(s0, Acquire(2, 0));
    var s2 := Apply(s1, Lock(2));
    var s3 := Apply(s2, Recheck(2));
    t := Apply(s3, ClearInUse(1));
    assert Runs(t, [], t);
    acts := Prepend(s3, ClearInUse(1), t, [], t);
    acts := Prepend(s2, Recheck(2), s3, acts, t);
    acts := Prepend(s1, Lock(2), s2, acts, t);
    acts := Prepend(s0, Acquire(2, 0), s1, acts, t);
  }

  /**
    An abort clears the flag only after it has unlocked, and so it can clear it for the next
    thread: here that thread runs the initialiser, and the flag denies it.
   */
  lemma AbortCanHideInUse() returns (acts: seq<Action>, t: Sys)
    ensures Runs(Init(), acts, t) && 0 in OpenOf(t, 2) && !GuardOf(t, 0).inUse
  {
    var s0 := Init();
    var s1 := Apply(s0, Acquire(1, 0));
    var s2 := Apply(s1, Lock(1));
    var s3 := Apply(s2, Recheck(1));
    assert Apply(s3, Abort(1, 0)) == GivenUp();
    acts, t := SecondOpens();
    acts := Prepend(s3, Abort(1, 0), GivenUp(), acts, t);
    acts := Prepend(s2, Recheck(1), s3, acts, t);
    acts := Prepend(s1, Lock(1), s2, acts, t);
    acts := Prepend(s0, Acquire(1, 0), s1, acts, t);
  }
}
