/**
  The event queue of core/kernel/eventqueue.cpp as a list of events, and what its operations do
  to the list.
 */
module EventQueueSpec {
  import opened Words

  /** What is handed to a caller; `clear` is the EV_CLEAR bit of the flags. */
  datatype KernelEvent = KernelEvent(ident: Int32, filter: int, clear: bool, fflags: Uint32, data: int, udata: int)

  /**
    The callbacks an event may come with: none, those of user events, or those of video and
    graphics events, which use `data` where the former use `udata`.
   */
  datatype Hook = NoHook | UserHook | DeviceHook

  datatype Event = Event(triggered: bool, event: KernelEvent, onTrigger: Hook, onReset: Hook)

  function Fired(e: Event, data: int): Event {
    var k := e.event.(fflags := ToU32(e.event.fflags + 1));
    match e.onTrigger
    case NoHook => e.(triggered := true, event := k)
    case UserHook => e.(triggered := true, event := k.(udata := data))
    case DeviceHook => e.(triggered := true, event := k.(data := data))
  }

  function Reset(e: Event): Event {
    match e.onReset
    case NoHook => e
    case UserHook => e.(triggered := false, event := e.event.(fflags := 0, udata := 0))
    case DeviceHook => e.(triggered := false, event := e.event.(fflags := 0, data := 0))
  }

  /** An event that has just been reported. */
  function Reported(e: Event): Event {
    if e.event.clear then Reset(e) else e
  }

  predicate IsAt(e: Event, ident: nat, filter: int) {
    Widen(e.event.ident) == ident && e.event.filter == filter
  }

  /** The first event with the key, or the length of the list. */
  function Find(es: seq<Event>, ident: nat, filter: int): (i: nat)
    ensures i <= |es|
  {
    if es == [] || IsAt(es[0], ident, filter) then 0 else 1 + Find(es[1..], ident, filter)
  }

  function FindLike(es: seq<Event>, e: Event): (i: nat)
    ensures i <= |es|
  {
    Find(es, Widen(e.event.ident), e.event.filter)
  }

  function Add(es: seq<Event>, e: Event): seq<Event> {
    var i := FindLike(es, e);
    if i < |es| then es[i := e] else es + [e]
  }

  function Trigger(es: seq<Event>, ident: nat, filter: int, data: int): seq<Event> {
    var i := Find(es, ident, filter);
    if i < |es| then es[i := Fired(es[i], data)] else es
  }

  /** The same trigger `n` times over. */
  function TriggerTimes(es: seq<Event>, ident: nat, filter: int, data: int, n: nat): seq<Event>
    decreases n
  {
    if n == 0 then es else Trigger(TriggerTimes(es, ident, filter, data, n - 1), ident, filter, data)
  }

  lemma {:induction false} FindAgain(es: seq<Event>, fs: seq<Event>, ident: nat, filter: int)
    requires |es| == |fs| && forall i :: 0 <= i < |es| ==> es[i].event.ident == fs[i].event.ident && es[i].event.filter == fs[i].event.filter
    ensures Find(es, ident, filter) == Find(fs, ident, filter)
  {
    if es != [] {
      FindAgain(es[1..], fs[1..], ident, filter);
    }
  }

  /** `f` is what `n` triggers with the same data make of `e`. */
  predicate IsFired(e: Event, f: Event, data: int, n: nat) {
    && f.triggered && f.onTrigger == e.onTrigger && f.onReset == e.onReset
    && f.event.ident == e.event.ident && f.event.filter == e.event.filter && f.event.clear == e.event.clear
    && f.event.fflags == ToU32(e.event.fflags + n)
    && f.event.data == (if e.onTrigger.DeviceHook? then data else e.event.data)
    && f.event.udata == (if e.onTrigger.UserHook? then data else e.event.udata)
  }

  /** An event that clears when it is reported. */
  predicate Edge(e: Event) {
    e.event.clear && e.onReset != NoHook
  }

  /** `f` is what a report leaves of `e`: an event that clears is not triggered any more and holds nothing; no other changes. */
  predicate IsReported(e: Event, f: Event) {
    if Edge(e) then
      && !f.triggered && f.onTrigger == e.onTrigger && f.onReset == e.onReset
      && f.event.ident == e.event.ident && f.event.filter == e.event.filter && f.event.clear
      && f.event.fflags == 0
      && f.event.data == (if e.onReset.DeviceHook? then 0 else e.event.data)
      && f.event.udata == (if e.onReset.UserHook? then 0 else e.event.udata)
    else f == e
  }

  lemma ReportedIs(e: Event)
    ensures IsReported(e, Reported(e))
  {
  }

  lemma FiredAgain(e: Event, f: Event, data: int, n: nat)
    requires IsFired(e, f, data, n)
    ensures IsFired(e, Fired(f, data), data, n + 1)
  {
    ShiftU32(e.event.fflags + n, 1);
  }

  /** Repeated triggers go to one event: it is triggered, counts them all, and holds the data if it takes them; no other changes. */
  lemma {:induction false} TriggerTimesIs(es: seq<Event>, ident: nat, filter: int, data: int, n: nat)
    requires n > 0
    ensures var i, fs := Find(es, ident, filter), TriggerTimes(es, ident, filter, data, n);
      && |fs| == |es|
      && (forall k :: 0 <= k < |es| && k != i ==> fs[k] == es[k])
      && (i < |es| ==> IsFired(es[i], fs[i], data, n))
    decreases n
  {
    var gs, i := TriggerTimes(es, ident, filter, data, n - 1), Find(es, ident, filter);
    if n > 1 {
      TriggerTimesIs(es, ident, filter, data, n - 1);
      FindAgain(es, gs, ident, filter);
      if i < |es| {
        FiredAgain(es[i], gs[i], data, n - 1);
      }
    }
  }

  function Delete(es: seq<Event>, ident: nat, filter: int): seq<Event> {
    var i := Find(es, ident, filter);
    if i < |es| then es[..i] + es[i + 1..] else es
  }

  predicate HasEvents(es: seq<Event>) {
    exists i :: 0 <= i < |es| && es[i].triggered
  }

  /** What one collection reports and the list it leaves; it stops once `num` are reported. */
  datatype Collection = Collection(out: seq<KernelEvent>, rest: seq<Event>)

  function Collect(es: seq<Event>, num: int): (c: Collection) {
    if es == [] then Collection([], [])
    else if !es[0].triggered then
      var c := Collect(es[1..], num);
      Collection(c.out, [es[0]] + c.rest)
    else if num <= 1 then Collection([es[0].event], [Reported(es[0])] + es[1..])
    else
      var c := Collect(es[1..], num - 1);
      Collection([es[0].event] + c.out, [Reported(es[0])] + c.rest)
  }

  // ---- the operations against independent descriptions ----

  lemma {:induction false} FindIsFirst(es: seq<Event>, ident: nat, filter: int)
    ensures forall k :: 0 <= k < Find(es, ident, filter) ==> Widen(es[k].event.ident) != ident || es[k].event.filter != filter
    ensures var i := Find(es, ident, filter);
      i < |es| ==> Widen(es[i].event.ident) == ident && es[i].event.filter == filter
  {
    if es != [] && !IsAt(es[0], ident, filter) {
      FindIsFirst(es[1..], ident, filter);
    }
  }

  /** The reports of the triggered events, in list order. */
  function Pending(es: seq<Event>): seq<KernelEvent> {
    if es == [] then [] else Pending(es[..|es| - 1]) + if es[|es| - 1].triggered then [es[|es| - 1].event] else []
  }

  lemma {:induction false} PendingCons(e: Event, es: seq<Event>)
    ensures Pending([e] + es) == (if e.triggered then [e.event] else []) + Pending(es)
  {
    if es == [] {
      assert [e] + es == [e];
    } else {
      var n := |es| - 1;
      PendingCons(e, es[..n]);
      assert ([e] + es)[..n + 1] == [e] + es[..n];
    }
  }

  /** How many reports fit: a limit below one still lets the first through. */
  function Limit(num: int): nat {
    if num <= 1 then 1 else num
  }

  /** Whether the event at `i` is among the first `num` triggered ones. */
  predicate Taken(es: seq<Event>, num: int, i: nat)
    requires i < |es|
  {
    es[i].triggered && |Pending(es[..i])| < Limit(num)
  }

  lemma PendingFrom(es: seq<Event>, i: nat)
    requires es != [] && i < |es|
    ensures i >= 1 ==> |Pending(es[..i])| == |Pending(es[1..][..i - 1])| + if es[0].triggered then 1 else 0
    ensures i == 0 ==> Pending(es[..i]) == []
  {
    if i >= 1 {
      assert es[..i] == [es[0]] + es[1..][..i - 1];
      PendingCons(es[0], es[1..][..i - 1]);
    }
  }

  /** After an event that does not end the collection, the rest goes on with what room is left. */
  lemma TakenInTail(es: seq<Event>, num: int, i: nat)
    requires 1 <= i < |es| && !(es[0].triggered && num <= 1)
    ensures Taken(es, num, i) == Taken(es[1..], if es[0].triggered then num - 1 else num, i - 1)
  {
    PendingFrom(es, i);
  }

  lemma TakenAlone(es: seq<Event>, num: int, i: nat)
    requires i < |es| && es[0].triggered && num <= 1
    ensures Taken(es, num, i) <==> i == 0
  {
    PendingFrom(es, i);
  }

  /** A collection treats the first `num` triggered events and no others as reported. */
  lemma {:induction false} CollectLeaves(es: seq<Event>, num: int)
    ensures |Collect(es, num).rest| == |es|
    ensures forall i :: 0 <= i < |es| ==> Collect(es, num).rest[i] == if Taken(es, num, i) then Reported(es[i]) else es[i]
    ensures forall i :: 0 <= i < |es| && Taken(es, num, i) ==> IsReported(es[i], Collect(es, num).rest[i])
  {
    if es != [] {
      if es[0].triggered && num <= 1 {
        forall i | 0 <= i < |es| ensures Taken(es, num, i) <==> i == 0 {
          TakenAlone(es, num, i);
        }
      } else {
        PendingFrom(es, 0);
        CollectLeaves(es[1..], if es[0].triggered then num - 1 else num);
        forall i | 1 <= i < |es| {
          TakenInTail(es, num, i);
        }
      }
    }
  }

  /** A collection reports exactly the first `num` triggered events, in list order. */
  lemma {:induction false} CollectReports(es: seq<Event>, num: int)
    ensures var n := if num <= 1 then 1 else num;
      Collect(es, num).out == Pending(es)[..if n <= |Pending(es)| then n else |Pending(es)|]
  {
    if es != [] {
      assert es == [es[0]] + es[1..];
      PendingCons(es[0], es[1..]);
      if !(es[0].triggered && num <= 1) {
        CollectReports(es[1..], if es[0].triggered then num - 1 else num);
      }
    }
  }

  lemma {:induction false} PendingHas(es: seq<Event>, i: nat)
    requires i < |es| && es[i].triggered
    ensures es[i].event in Pending(es)
  {
    var n := |es| - 1;
    if i < n {
      PendingHas(es[..n], i);
    }
  }

  /** A report comes from a triggered event. */
  lemma {:induction false} PendingIsFrom(es: seq<Event>, k: KernelEvent) returns (j: nat)
    requires k in Pending(es)
    ensures j < |es| && es[j].triggered && es[j].event == k
  {
    var n := |es| - 1;
    if k in Pending(es[..n]) {
      j := PendingIsFrom(es[..n], k);
    } else {
      j := n;
    }
  }

  lemma {:induction false} PendingFew(es: seq<Event>)
    ensures |Pending(es)| <= |es|
    ensures Pending(es) != [] <==> HasEvents(es)
  {
    if es != [] {
      var n := |es| - 1;
      PendingFew(es[..n]);
      assert es[n].triggered ==> HasEvents(es);
      assert HasEvents(es[..n]) ==> HasEvents(es) by {
        if HasEvents(es[..n]) {
          var i :| 0 <= i < n && es[..n][i].triggered;
          assert es[i].triggered;
        }
      }
      if HasEvents(es) {
        var i :| 0 <= i < |es| && es[i].triggered;
        assert i < n ==> es[..n][i].triggered;
      }
    }
  }

  /** Room for as many reports as there are events: every triggered one is reported. */
  lemma AllPendingAreReported(es: seq<Event>, num: int, i: nat)
    requires i < |es| <= num && es[i].triggered
    ensures es[i].event in Collect(es, num).out
  {
    CollectReports(es, num);
    PendingFew(es);
    PendingHas(es, i);
  }

  // ---- keys ----

  predicate UniqueKeys(es: seq<Event>) {
    forall i, j :: 0 <= i < j < |es| ==> es[i].event.ident != es[j].event.ident || es[i].event.filter != es[j].event.filter
  }

  /** Adding puts the event in place of the one with its key, or last, and leaves the others alone. */
  lemma AddIs(es: seq<Event>, e: Event)
    ensures var i, fs := FindLike(es, e), Add(es, e);
      && |fs| == (if i < |es| then |es| else |es| + 1) && fs[i] == e
      && forall k :: 0 <= k < |es| && k != i ==> fs[k] == es[k]
  {
  }

  /** Deleting takes out the event with the key and leaves the others in order. */
  lemma DeleteIs(es: seq<Event>, ident: nat, filter: int)
    ensures var i, fs := Find(es, ident, filter), Delete(es, ident, filter);
      && |fs| == (if i < |es| then |es| - 1 else |es|)
      && forall k :: 0 <= k < |fs| ==> fs[k] == es[if k < i then k else k + 1]
  {
  }

  lemma AddKeepsKeys(es: seq<Event>, e: Event)
    requires UniqueKeys(es)
    ensures UniqueKeys(Add(es, e))
  {
    FindIsFirst(es, Widen(e.event.ident), e.event.filter);
  }

  lemma DeleteKeepsKeys(es: seq<Event>, ident: nat, filter: int)
    requires UniqueKeys(es)
    ensures UniqueKeys(Delete(es, ident, filter))
    ensures Find(Delete(es, ident, filter), ident, filter) == |Delete(es, ident, filter)|
  {
    FindIsFirst(es, ident, filter);
    FindIsFirst(Delete(es, ident, filter), ident, filter);
  }

  lemma CollectKeepsKeys(es: seq<Event>, num: int)
    requires UniqueKeys(es)
    ensures UniqueKeys(Collect(es, num).rest)
  {
    CollectLeaves(es, num);
  }
}
