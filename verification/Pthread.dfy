/**
  Mutexes, read-write locks and `once` of core/kernel/pthread.cpp as objects, each call run
  without interruption. A lock call is modelled from the moment it can be served, so it asks that
  no other thread is in the way.
 */
module Pthread {
  import opened Words

  datatype Code = Ok | EINVAL | EPERM | EDEADLK

  /** The recursive lock `p` of a mutex and the mutex's type. */
  class PthreadMutexPrivate {
    const recursive: bool
    var lockingThreadId: Option<int>
    var recursionCount: nat

    constructor (recursive: bool)
      ensures this.recursive == recursive && lockingThreadId == None && recursionCount == 0
    {
      this.recursive, lockingThreadId, recursionCount := recursive, None, 0;
    }

    predicate Valid()
      reads this
    {
      lockingThreadId.None? <==> recursionCount == 0
    }

    predicate Free(self: int)
      reads this
    {
      lockingThreadId in {None, Some(self)}
    }

    method Lock(self: int)
      requires Valid() && Free(self)
      modifies this
      ensures Valid() && lockingThreadId == Some(self) && recursionCount == old(recursionCount) + 1
    {
      lockingThreadId, recursionCount := Some(self), recursionCount + 1;
    }

    method Unlock()
      requires Valid() && recursionCount > 0
      modifies this
      ensures Valid() && recursionCount == old(recursionCount) - 1
      ensures recursionCount > 0 ==> lockingThreadId == old(lockingThreadId)
    {
      recursionCount := recursionCount - 1;
      if recursionCount == 0 {
        lockingThreadId := None;
      }
    }
  }

  /** A control block: `mutex` starts as null and `isInit` as 0. `runs` counts the init routine. */
  class PthreadOnce {
    var mutex: PthreadMutexPrivate?
    var isInit: bool
    var runs: nat

    constructor ()
      ensures mutex == null && !isInit && runs == 0
    {
      mutex, isInit, runs := null, false, 0;
    }

    predicate Valid()
      reads this, mutex
    {
      mutex != null ==> mutex.Valid()
    }

    predicate Free(self: int)
      reads this, mutex
    {
      mutex != null ==> mutex.Free(self)
    }

    /** How deep `self` holds the mutex. */
    function Depth(self: int): nat
      reads this, mutex
    {
      if mutex != null && mutex.lockingThreadId == Some(self) then mutex.recursionCount else 0
    }

    /** checkMutexInit: 506-516; a mutex made here is not recursive */
    method CheckMutexInit()
      requires Valid()
      modifies this`mutex
      ensures Valid() && mutex != null
      ensures old(mutex) != null ==> mutex == old(mutex)
      ensures old(mutex) == null ==> fresh(mutex) && !mutex.recursive && mutex.lockingThreadId == None
    {
      if mutex == null {
        mutex := new PthreadMutexPrivate(false);
      }
    }

    /**
      mutexLock: 518-532. Locking a mutex again that is not recursive is refused and changes
      nothing.
     */
    method MutexLock(self: int) returns (ret: Code)
      requires Valid() && Free(self)
      modifies this`mutex, mutex
      ensures Valid() && mutex != null && Free(self)
      ensures old(mutex) != null ==> mutex == old(mutex) && mutex.recursive == old(mutex.recursive)
      ensures old(mutex) == null ==> fresh(mutex) && !mutex.recursive
      ensures ret == EDEADLK <==> old(mutex) != null && !mutex.recursive && old(Depth(self)) > 0
      ensures ret in {Ok, EDEADLK}
      ensures Depth(self) == old(Depth(self)) + if ret == Ok then 1 else 0
    {
      CheckMutexInit();
      mutex.Lock(self);
      ret := Ok;
      if !mutex.recursive && mutex.recursionCount > 1 {
        ret := EDEADLK;
        mutex.Unlock();
      }
    }

    /** mutexUnlock: 586-602 */
    method MutexUnlock(self: int) returns (ret: Code)
      requires Valid()
      modifies mutex
      ensures Valid()
      ensures ret == EINVAL <==> mutex == null
      ensures ret == EPERM <==> mutex != null && old(Depth(self)) == 0
      ensures ret in {Ok, EINVAL, EPERM}
      ensures ret == Ok ==> Depth(self) == old(Depth(self)) - 1 && Free(self)
      ensures ret == EPERM ==> mutex.lockingThreadId == old(mutex.lockingThreadId) && mutex.recursionCount == old(mutex.recursionCount)
    {
      if mutex == null {
        return EINVAL;
      }
      if mutex.lockingThreadId != Some(self) {
        return EPERM;
      }
      mutex.Unlock();
      return Ok;
    }

    /** A lock that succeeds is undone by the unlock that follows. */
    method LockThenUnlock(self: int) returns (locked: Code, unlocked: Code)
      requires Valid() && Free(self)
      modifies this`mutex, mutex
      ensures Valid() && (locked == Ok ==> unlocked == Ok && Depth(self) == old(Depth(self)))
    {
      locked := MutexLock(self);
      if locked != Ok {
        return locked, Ok;
      }
      unlocked := MutexUnlock(self);
    }

    /**
      once: 1033-1046. It runs the routine if nobody has and leaves the mutex as it was, unless
      the calling thread already holds the mutex: then the refusal to lock goes unnoticed and the
      unlock takes one hold away from the caller.
     */
    method Once(self: int) returns (ret: Code)
      requires Valid() && Free(self) && (mutex != null ==> !mutex.recursive)
      modifies this, mutex
      ensures Valid() && ret == Ok && isInit
      ensures runs == old(runs) + if old(isInit) then 0 else 1
      ensures mutex != null && !mutex.recursive && Free(self)
      ensures if old(mutex) != null then mutex == old(mutex) else fresh(mutex)
      ensures old(Depth(self)) == 0 ==> Depth(self) == 0
      ensures old(Depth(self)) > 0 ==> Depth(self) == old(Depth(self)) - 1
    {
      var res := MutexLock(self);
      if !isInit {
        runs := runs + 1;
        isInit := true;
      }
      res := MutexUnlock(self);
      return Ok;
    }

    /** Re-entry, step by step: a caller that holds the mutex calls `once` and has lost its hold afterwards. */
    method OnceWhileHolding(self: int) returns (locked: Code, unlocked: Code)
      requires Valid() && Free(self) && (mutex != null ==> !mutex.recursive) && Depth(self) == 0
      modifies this, mutex
      ensures Valid() && isInit && runs == old(runs) + if old(isInit) then 0 else 1
      ensures locked == Ok && unlocked == EPERM && Depth(self) == 0
    {
      locked := MutexLock(self);
      assert Depth(self) == 1;
      var ret := Once(self);
      unlocked := MutexUnlock(self);
    }
  }

  /** The shared mutex `p` of a read-write lock and the flag beside it. */
  class PthreadRwlockPrivate {
    var exclusive: bool
    var shared: nat
    var isWrite: bool

    constructor ()
      ensures !exclusive && shared == 0 && !isWrite
    {
      exclusive, shared, isWrite := false, 0, false;
    }

    /** Between calls the flag says whether the lock is held exclusively. */
    predicate Valid()
      reads this
    {
      isWrite == exclusive && (exclusive ==> shared == 0)
    }

    /** rwlockRdlock: 647-661 */
    method Rdlock()
      requires Valid() && !exclusive
      modifies this
      ensures Valid() && !exclusive && shared == old(shared) + 1
    {
      shared := shared + 1;
    }

    /** rwlockWrlock: 748-758 */
    method Wrlock()
      requires Valid() && !exclusive && shared == 0
      modifies this
      ensures Valid() && exclusive && shared == 0
    {
      exclusive := true;
      isWrite := true;
    }

    /** rwlockUnlock: 735-746; it finds out by the flag which hold it gives up */
    method Unlock()
      requires Valid() && (exclusive || shared > 0)
      modifies this
      ensures Valid() && !exclusive
      ensures shared == if old(exclusive) then 0 else old(shared) - 1
    {
      if isWrite {
        isWrite := false;
        exclusive := false;
      } else {
        shared := shared - 1;
      }
    }
  }
}
