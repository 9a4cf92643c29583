/**
  core/kernel/eventflag.cpp as an object. A call that sleeps is split where the mutex is
  released, so each section is a method and says whether the caller goes to sleep.
 */
module EventFlag {
  import opened Words
  import opened EventFlagSpec

  class KernelEventFlag {
    var status: Status
    var bits: Word
    var waitingThreads: nat
    const singleThread: bool

    constructor (single: bool, bits: Word)
      ensures Abs() == Flag(Set, bits, 0, single)
    {
      singleThread, status, this.bits, waitingThreads := single, Set, bits, 0;
    }

    function Abs(): Flag
      reads this
    {
      Flag(status, bits, waitingThreads, singleThread)
    }

    /** set: 66-72, from the lock or from a wake-up to the return or back to sleep */
    method SetSection(more: Word) returns (asleep: bool)
      modifies this
      ensures asleep <==> old(Abs()).status != Set
      ensures Abs() == if asleep then old(Abs()) else SetBits(old(Abs()), more)
      ensures forall b: Bit :: b in bits <==> b in old(bits) || (!asleep && b in more)
    {
      if status != Set {
        return true;
      }
      bits := bits + more;
      return false;
    }

    /** clear: 74-79 */
    method ClearSection(mask: Word) returns (asleep: bool)
      modifies this
      ensures asleep <==> old(Abs()).status != Set
      ensures Abs() == if asleep then old(Abs()) else ClearBits(old(Abs()), mask)
      ensures forall b: Bit :: b in bits <==> b in old(bits) && (asleep || b in mask)
    {
      if status != Set {
        return true;
      }
      bits := bits * mask;
      return false;
    }

    /** cancel up to the drain: 81-92 */
    method CancelSection(value: Word) returns (asleep: bool, numWaitingThreads: nat)
      modifies this
      ensures asleep <==> old(Abs()).status != Set
      ensures Abs() == if asleep then old(Abs()) else BeginCancel(old(Abs()), value)
      ensures numWaitingThreads == waitingThreads == old(waitingThreads)
      ensures !asleep ==> status == Canceled && bits == value
    {
      numWaitingThreads := waitingThreads;
      if status != Set {
        return true, numWaitingThreads;
      }
      status := Canceled;
      bits := value;
      return false, numWaitingThreads;
    }

    /** the end of a cancel's drain: 93-94 */
    method CancelDrained() returns (asleep: bool)
      modifies this
      ensures asleep <==> old(Abs()).waiting != 0
      ensures Abs() == if asleep then old(Abs()) else EndCancel(old(Abs()))
      ensures !asleep ==> status == Set && bits == old(bits)
    {
      if waitingThreads != 0 {
        return true;
      }
      status := Set;
      return false;
    }

    /** the destructor up to its drain: 55-62 */
    method DeleteSection() returns (asleep: bool)
      modifies this
      ensures asleep <==> old(Abs()).status != Set
      ensures Abs() == if asleep then old(Abs()) else BeginDelete(old(Abs()))
      ensures !asleep ==> status == Deleted && bits == old(bits)
    {
      if status != Set {
        return true;
      }
      status := Deleted;
      return false;
    }

    /** wait from its lock to its first sleep or its return: 97-161 */
    method WaitSection(r: Request) returns (result: Option<Result>)
      modifies this
      ensures Refuses(old(Abs())) ==> Abs() == old(Abs()) && result == Some(Result(EPERM, None))
      ensures !Refuses(old(Abs())) && Fulfilled(old(Abs()), r) ==>
        && Abs() == Leave(Enter(old(Abs())), r)
        && result == Some(Result(LeaveCode(old(Abs())), Some(old(Abs()).bits)))
      ensures !Refuses(old(Abs())) && !Fulfilled(old(Abs()), r) ==> Abs() == Enter(old(Abs())) && result == None
    {
      if singleThread && waitingThreads > 0 {
        return Some(Result(EPERM, None));
      }
      waitingThreads := waitingThreads + 1;
      result := WakeSection(r);
    }

    /** wait when it is woken: 114-160 */
    method WakeSection(r: Request) returns (result: Option<Result>)
      requires waitingThreads > 0
      modifies this
      ensures Fulfilled(old(Abs()), r) ==>
        Abs() == Leave(old(Abs()), r) && result == Some(Result(LeaveCode(old(Abs())), Some(old(Abs()).bits)))
      ensures !Fulfilled(old(Abs()), r) ==> Abs() == old(Abs()) && result == None
      ensures result.Some? ==> waitingThreads == old(waitingThreads) - 1 && result.value.seen == Some(old(bits))
      ensures forall b: Bit :: b in bits <==>
        b in old(bits) && !(result.Some? && result.value.code == Ok && (r.clear == All || (r.clear == Bits && b in r.bits)))
    {
      var awake := status == Canceled || status == Deleted
                || (r.mode == And && bits * r.bits == r.bits) || (r.mode == Or && bits * r.bits != {});
      if !awake {
        return None;
      }
      waitingThreads := waitingThreads - 1;
      var seen := Some(bits);
      if status == Canceled {
        return Some(Result(ECANCELED, seen));
      } else if status == Deleted {
        return Some(Result(EINTR, seen));
      }
      if r.clear == All {
        bits := {};
      } else if r.clear == Bits {
        bits := bits - r.bits;
      }
      return Some(Result(Ok, seen));
    }

    /** wait when its time is up and its predicate does not hold: 121-128 */
    method TimeoutSection() returns (result: Result)
      requires waitingThreads > 0
      modifies this
      ensures bits == old(bits) && waitingThreads == old(waitingThreads) - 1
      ensures Abs() == GiveUp(old(Abs())) && result == Result(ETIMEDOUT, Some(old(Abs()).bits))
    {
      var seen := Some(bits);
      waitingThreads := waitingThreads - 1;
      return Result(ETIMEDOUT, seen);
    }
  }
}
