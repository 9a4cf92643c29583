/**
  The event flag of core/kernel/eventflag.cpp as a value, and what each section run under its
  mutex does to it. A section ends where the lock is released: at a return or at a wait.
 */
module EventFlagSpec {
  import opened Words

  /** A bit of a 64-bit word, and a word as the set of its bits that are one. */
  type Bit = b: nat | b < 64

  type Word = set<Bit>

  datatype Status = Set | Canceled | Deleted

  datatype WaitMode = And | Or

  datatype ClearMode = Keep | All | Bits

  datatype Code = Ok | EPERM | ETIMEDOUT | ECANCELED | EINTR

  /** The arguments of a wait; `timed` says whether it was given a time limit. */
  datatype Request = Request(bits: Word, mode: WaitMode, clear: ClearMode, timed: bool)

  /** `waiting` counts the threads between entering and leaving a wait. */
  datatype Flag = Flag(status: Status, bits: Word, waiting: nat, single: bool)

  /** What a wait returns and the bits it reports, if any. */
  datatype Result = Result(code: Code, seen: Option<Word>)

  predicate Matches(bits: Word, r: Request) {
    match r.mode
    case And => bits * r.bits == r.bits
    case Or => bits * r.bits != {}
  }

  /** The predicate a waiting thread sleeps on. */
  predicate Fulfilled(f: Flag, r: Request) {
    f.status != Set || Matches(f.bits, r)
  }

  function SetBits(f: Flag, bits: Word): Flag {
    f.(bits := f.bits + bits)
  }

  function ClearBits(f: Flag, bits: Word): Flag {
    f.(bits := f.bits * bits)
  }

  function BeginCancel(f: Flag, bits: Word): Flag {
    f.(status := Canceled, bits := bits)
  }

  function EndCancel(f: Flag): Flag {
    f.(status := Set)
  }

  function BeginDelete(f: Flag): Flag {
    f.(status := Deleted)
  }

  predicate Refuses(f: Flag) {
    f.single && f.waiting > 0
  }

  function Enter(f: Flag): Flag {
    f.(waiting := f.waiting + 1)
  }

  function Cleared(bits: Word, r: Request): Word {
    match r.clear
    case Keep => bits
    case All => {}
    case Bits => bits - r.bits
  }

  function LeaveCode(f: Flag): Code {
    match f.status
    case Set => Ok
    case Canceled => ECANCELED
    case Deleted => EINTR
  }

  /** A waiter whose predicate holds leaves; bits are cleared only on success. */
  function Leave(f: Flag, r: Request): Flag
    requires f.waiting > 0
  {
    f.(waiting := f.waiting - 1, bits := if f.status == Set then Cleared(f.bits, r) else f.bits)
  }

  function GiveUp(f: Flag): Flag
    requires f.waiting > 0
  {
    f.(waiting := f.waiting - 1)
  }

  /** A wait for all of its bits finds each of them set, one for any of them finds one. */
  lemma MatchesIff(bits: Word, r: Request)
    ensures Matches(bits, r) <==> if r.mode == And then forall b :: b in r.bits ==> b in bits else exists b :: b in r.bits && b in bits
  {
    if r.mode == And {
      assert bits * r.bits == r.bits <==> r.bits <= bits;
    } else if bits * r.bits != {} {
      var b :| b in bits * r.bits;
      assert b in r.bits && b in bits;
    } else {
      assert forall b :: b in r.bits && b in bits ==> b in bits * r.bits;
    }
  }

  /** Clearing never makes a sleeping predicate true. */
  lemma MatchesGrows(bits: Word, more: Word, r: Request)
    requires bits <= more && Matches(bits, r)
    ensures Matches(more, r)
  {
    if r.mode == And {
      assert r.bits <= bits;
    } else {
      var b :| b in bits * r.bits;
      assert b in more * r.bits;
    }
  }

  /** A wait that clears takes each of its bits away if it waits for all of them, and one at least if for any. */
  lemma ConsumeTakes(bits: Word, r: Request)
    requires Matches(bits, r) && r.clear != Keep
    ensures r.mode == And ==> forall b: Bit :: b in r.bits ==> b in bits && b !in Cleared(bits, r)
    ensures r.mode == Or ==> exists b: Bit :: b in r.bits && b in bits && b !in Cleared(bits, r)
  {
    if r.mode == And {
      forall b: Bit | b in r.bits ensures b in bits && b !in Cleared(bits, r) {
        assert b in bits * r.bits;
      }
    } else {
      var b :| b in bits * r.bits;
      assert b in r.bits && b in bits && b !in Cleared(bits, r);
    }
  }
}
