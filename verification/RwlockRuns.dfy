/**
  Any number of holders of one read-write lock of core/kernel/pthread.cpp. The unlock call does
  not say what kind of hold it gives up: it goes by the flag `isWrite`, which is read and written
  outside the lock. A hold stands for one lock call up to the matching unlock call, and only the
  hold's own unlock releases it; one thread may have several shared ones.
 */
module RwlockRuns {

  datatype Kind = Shared | Exclusive

  datatype Pc =
    | Locked            // p.lock() is done, isWrite not yet set
    | Held              // the lock call has returned
    | Testing           // unlock called, about to read isWrite
    | Clearing          // about to write false to isWrite
    | Dropping          // about to call p.unlock()
    | DroppingShared    // about to call p.unlock_shared()

  /**
    The state of the shared mutex `p`, the flag, where each hold is, and of which kind each hold
    was when it was taken. The kinds are for the statements only: no step looks at them.
   */
  datatype Sys = Sys(exclusive: bool, shared: int, isWrite: bool, pcs: map<int, Pc>, kinds: map<int, Kind>)

  datatype Action =
    | LockShared(hold: int)
    | LockExclusive(hold: int)
    | SetFlag(hold: int)
    | Unlock(hold: int)
    | ReadFlag(hold: int)
    | ClearFlag(hold: int)
    | ReleaseExclusive(hold: int)
    | ReleaseShared(hold: int)

  function Init(): Sys {
    Sys(false, 0, false, map[], map[])
  }

  predicate At(s: Sys, h: int, pc: Pc) {
    h in s.pcs && s.pcs[h] == pc
  }

  predicate Enabled(s: Sys, a: Action) {
    match a
    case LockShared(h) => h !in s.pcs && !s.exclusive
    case LockExclusive(h) => h !in s.pcs && !s.exclusive && s.shared == 0
    case SetFlag(h) => At(s, h, Locked)
    case Unlock(h) => At(s, h, Held)
    case ReadFlag(h) => At(s, h, Testing)
    case ClearFlag(h) => At(s, h, Clearing)
    case ReleaseExclusive(h) => At(s, h, Dropping)
    case ReleaseShared(h) => At(s, h, DroppingShared)
  }

  function Apply(s: Sys, a: Action): Sys {
    match a
    case LockShared(h) => s.(shared := s.shared + 1, pcs := s.pcs[h := Held], kinds := s.kinds[h := Shared])
    case LockExclusive(h) => s.(exclusive := true, pcs := s.pcs[h := Locked], kinds := s.kinds[h := Exclusive])
    case SetFlag(h) => s.(isWrite := true, pcs := s.pcs[h := Held])
    case Unlock(h) => s.(pcs := s.pcs[h := Testing])
    case ReadFlag(h) => s.(pcs := s.pcs[h := if s.isWrite then Clearing else DroppingShared])
    case ClearFlag(h) => s.(isWrite := false, pcs := s.pcs[h := Dropping])
    case ReleaseExclusive(h) => s.(exclusive := false, pcs := s.pcs - {h}, kinds := s.kinds - {h})
    case ReleaseShared(h) => s.(shared := s.shared - 1, pcs := s.pcs - {h}, kinds := s.kinds - {h})
  }

  ghost predicate Runs(s: Sys, acts: seq<Action>, t: Sys)
    decreases |acts|
  {
    if acts == [] then s == t else Enabled(s, acts[0]) && Runs(Apply(s, acts[0]), acts[1..], t)
  }

  // ---- invariants ----

  predicate Writes(s: Sys, h: int) {
    h in s.kinds && s.kinds[h] == Exclusive
  }

  /** A writer excludes every other hold; without one there are only readers. */
  ghost predicate Exclusion(s: Sys) {
    && (forall h :: h in s.pcs <==> h in s.kinds)
    && (s.exclusive ==> s.shared == 0 && |s.pcs| == 1)
    && (!s.exclusive ==> s.shared == |s.pcs|)
    && (forall h :: h in s.kinds ==> s.kinds[h] == if s.exclusive then Exclusive else Shared)
  }

  /** Where a hold may be, and how the flag stands then. */
  predicate Flagged(s: Sys) {
    && (!s.exclusive ==> !s.isWrite)
    && (forall h :: h in s.pcs ==>
          if s.exclusive then s.pcs[h] != DroppingShared && (s.isWrite <==> s.pcs[h] != Locked && s.pcs[h] != Dropping)
          else s.pcs[h] in {Held, Testing, DroppingShared})
  }

  ghost predicate Inv(s: Sys) {
    Exclusion(s) && Flagged(s)
  }

  lemma Single(m: map<int, Pc>, h: int, k: int)
    requires |m| == 1 && h in m && k in m
    ensures h == k
  {
    var rest := m.Keys - {h};
    assert |rest| == 0;
  }

  lemma Fewer(m: map<int, Pc>, h: int)
    requires h in m
    ensures |m - {h}| == |m| - 1 && (m - {h}).Keys == m.Keys - {h}
  {
    assert m == (m - {h})[h := m[h]];
  }

  lemma LockExclusion(s: Sys, a: Action)
    requires Inv(s) && Enabled(s, a) && (a.LockShared? || a.LockExclusive?)
    ensures Exclusion(Apply(s, a))
  {
    if a.LockExclusive? {
      assert s.pcs == map[];
    }
    assert |s.pcs[a.hold := Held]| == |s.pcs| + 1;
  }

  lemma ReleaseExclusion(s: Sys, a: Action)
    requires Inv(s) && Enabled(s, a) && (a.ReleaseShared? || a.ReleaseExclusive?)
    ensures Exclusion(Apply(s, a))
  {
    Fewer(s.pcs, a.hold);
    if s.exclusive {
      assert s.pcs - {a.hold} == map[];
    }
  }

  lemma MoveExclusion(s: Sys, h: int, pc: Pc, flag: bool)
    requires Exclusion(s) && h in s.pcs
    ensures Exclusion(s.(pcs := s.pcs[h := pc], isWrite := flag))
  {
    assert s.pcs[h := pc].Keys == s.pcs.Keys;
    assert |s.pcs[h := pc]| == |s.pcs|;
  }

  lemma StepExclusion(s: Sys, a: Action)
    requires Inv(s) && Enabled(s, a)
    ensures Exclusion(Apply(s, a))
  {
    if a.LockShared? || a.LockExclusive? {
      LockExclusion(s, a);
    } else if a.ReleaseShared? || a.ReleaseExclusive? {
      ReleaseExclusion(s, a);
    } else {
      var t := Apply(s, a);
      MoveExclusion(s, a.hold, t.pcs[a.hold], t.isWrite);
    }
  }

  lemma StepFlagged(s: Sys, a: Action)
    requires Inv(s) && Enabled(s, a)
    ensures Flagged(Apply(s, a))
  {
    if s.exclusive {
      forall k | k in s.pcs && a.hold in s.pcs ensures k == a.hold {
        Single(s.pcs, k, a.hold);
      }
    }
  }

  lemma {:induction false} RunInv(s: Sys, acts: seq<Action>, t: Sys)
    requires Inv(s) && Runs(s, acts, t)
    ensures Inv(t)
    decreases |acts|
  {
    if acts != [] {
      StepExclusion(s, acts[0]);
      StepFlagged(s, acts[0]);
      RunInv(Apply(s, acts[0]), acts[1..], t);
    }
  }

  // ---- theorems ----

  /**
    The unlock call always performs the release that fits the hold: when it has read the flag of
    a hold, it goes on to the exclusive release exactly if the hold is exclusive, and then the
    mutex is in the state that release is meant for.
   */
  lemma UnlockReleasesWhatIsHeld(acts: seq<Action>, t: Sys, h: int)
    requires Runs(Init(), acts, t) && h in t.pcs
    ensures h in t.kinds
    ensures t.pcs[h] == Testing ==> (t.isWrite <==> t.kinds[h] == Exclusive)
    ensures t.pcs[h] == Dropping ==> t.kinds[h] == Exclusive && t.exclusive
    ensures t.pcs[h] == DroppingShared ==> t.kinds[h] == Shared && !t.exclusive && t.shared > 0
  {
    RunInv(Init(), acts, t);
    assert t.pcs.Keys != {};
  }

  /** A writer is alone, readers are counted exactly, and an idle lock is as it was at first. */
  lemma WritersAreAlone(acts: seq<Action>, t: Sys)
    requires Runs(Init(), acts, t)
    ensures forall h, k :: Writes(t, h) && k in t.kinds ==> h == k
    ensures !t.exclusive ==> t.shared == |t.kinds|
    ensures t.kinds == map[] ==> t == Init()
  {
    RunInv(Init(), acts, t);
    assert t.pcs.Keys == t.kinds.Keys by {
      assert forall h :: h in t.pcs.Keys <==> h in t.kinds.Keys;
    }
    assert |t.pcs| == |t.pcs.Keys| == |t.kinds.Keys| == |t.kinds|;
    forall h, k | Writes(t, h) && k in t.kinds ensures h == k {
      assert h in t.pcs && k in t.pcs;
      Single(t.pcs, h, k);
    }
    if t.kinds == map[] {
      assert t.pcs == map[];
    }
  }
}
