/**
  The one-time construction guards of modules/libSceLibcInternal/entry.cpp as objects.
 */
module Guard {
  import opened Words

  class GuardObject {
    var initHasRun: bool
    var inUse: bool

    constructor ()
      ensures !initHasRun && !inUse
    {
      initHasRun, inUse := false, false;
    }
  }

  /** A guard's flags at some moment. */
  datatype Flags = Flags(initHasRun: bool, inUse: bool)

  /** The recursive mutex all guards share. */
  class GuardMutex {
    var owner: Option<int>
    var depth: nat

    constructor ()
      ensures Valid() && depth == 0
    {
      owner, depth := None, 0;
    }

    predicate Valid()
      reads this
    {
      owner.None? <==> depth == 0
    }

    method Lock(self: int)
      requires Valid() && owner in {None, Some(self)}
      modifies this
      ensures Valid() && owner == Some(self) && depth == old(depth) + 1
    {
      owner, depth := Some(self), depth + 1;
    }

    method Unlock()
      requires Valid() && depth > 0
      modifies this
      ensures Valid() && depth == old(depth) - 1 && (depth > 0 ==> owner == old(owner))
    {
      depth := depth - 1;
      if depth == 0 {
        owner := None;
      }
    }

    /** How often the thread holds the mutex. */
    function HeldBy(self: int): nat
      reads this
    {
      if owner == Some(self) then depth else 0
    }

    /**
      What other threads do until the caller gets the lock: whoever holds the mutex gives it up,
      and leaves the guard as `at` says.
     */
    method Others(go: GuardObject, self: int, at: Flags)
      requires Valid()
      modifies this, go
      ensures Valid() && owner in {None, Some(self)} && HeldBy(self) == old(HeldBy(self))
      ensures go.initHasRun == at.initHasRun && go.inUse == at.inUse
    {
      if owner != Some(self) {
        owner, depth := None, 0;
      }
      go.initHasRun, go.inUse := at.initHasRun, at.inUse;
    }

    /**
      __cxa_guard_acquire: 314-329. The first read takes no lock; `at` is what the guard is like
      when the caller gets it, which nobody else can have completed while the caller holds it.
      0 is answered exactly for a guard completed by then, and only an answer of 1 leaves the
      caller with one hold more.
     */
    method Acquire(go: GuardObject, self: int, at: Flags) returns (answer: int)
      requires Valid() && (HeldBy(self) > 0 && !go.initHasRun ==> !at.initHasRun)
      modifies this, go
      ensures Valid() && answer in {0, 1} && HeldBy(self) == old(HeldBy(self)) + answer
      ensures answer == 0 <==> old(go.initHasRun) || at.initHasRun
      ensures old(go.initHasRun) ==> unchanged(this) && unchanged(go)
      ensures !old(go.initHasRun) && answer == 0 ==> go.initHasRun && go.inUse == at.inUse && owner == None
      ensures answer == 1 ==> !go.initHasRun && go.inUse
    {
      if go.initHasRun {
        return 0;
      }
      Others(go, self, at);
      Lock(self);
      if go.initHasRun {
        Unlock();
        return 0;
      }
      go.inUse := true;
      return 1;
    }

    /** __cxa_guard_release: 331-335 */
    method Release(go: GuardObject)
      requires Valid() && depth > 0
      modifies this, go
      ensures Valid() && go.initHasRun && go.inUse == old(go.inUse)
      ensures depth == old(depth) - 1 && (depth > 0 ==> owner == old(owner))
    {
      go.initHasRun := true;
      Unlock();
    }

    /** __cxa_guard_abort: 337-341 */
    method Abort(go: GuardObject)
      requires Valid() && depth > 0
      modifies this, go
      ensures Valid() && !go.inUse && go.initHasRun == old(go.initHasRun)
      ensures depth == old(depth) - 1 && (depth > 0 ==> owner == old(owner))
    {
      Unlock();
      go.inUse := false;
    }

    /**
      A caller that is answered 1 and completes is answered 0 ever after, without the lock; one
      that aborts may start again unless somebody else completes first. The caller's holds are
      balanced.
     */
    method Construct(go: GuardObject, self: int, first: Flags, succeeds: bool, second: Flags) returns (again: int)
      requires Valid() && !go.initHasRun && !first.initHasRun && (HeldBy(self) > 0 ==> !second.initHasRun)
      modifies this, go
      ensures Valid() && again == if succeeds || second.initHasRun then 0 else 1
      ensures HeldBy(self) == old(HeldBy(self)) + again
    {
      var answer := Acquire(go, self, first);
      if succeeds {
        Release(go);
      } else {
        Abort(go);
      }
      again := Acquire(go, self, second);
    }
  }
}
