/**
  Any number of threads using one event queue. A step is one section under the mutex of
  core/kernel/eventqueue.cpp, or the delivery of one `notify_all` that is sent after the mutex
  was dropped.
 */
module EventQueueRuns {
  import opened Words
  import opened EventQueueSpec

  /**
    The ledger of one event since it was added: the `fflags` it was added with, how often it was
    triggered, the sum of the `fflags` reported for it, how often its `fflags` wrapped around, the
    triggers since it was last reported, and whether it was added triggered and not reported since.
   */
  datatype Stat = Stat(initial: nat, triggers: nat, reported: nat, wraps: nat, unreported: nat, armed: bool)

  /** `stats` runs beside `events`; `owed` counts notifications decided on but not yet sent. */
  datatype Sys = Sys(events: seq<Event>, stats: seq<Stat>, parked: map<int, int>, woken: set<int>, owed: nat)

  datatype Action =
    | AddEvent(e: Event)
    | TriggerEvent(ident: nat, filter: int, data: int)
    | DeleteEvent(ident: nat, filter: int)
    | PollEvents(num: int)
    | WaitArrive(tid: int, num: int)
    | WaitCheck(tid: int)
    | WaitTimeout(tid: int)
    | Notify

  function Init(): Sys {
    Sys([], [], map[], {}, 0)
  }

  predicate Enabled(s: Sys, a: Action) {
    match a
    case WaitArrive(tid, _) => tid !in s.parked
    case WaitCheck(tid) => tid in s.parked
    case WaitTimeout(tid) => tid in s.parked
    case Notify => s.owed > 0
    case _ => true
  }

  function Opened(e: Event): Stat {
    Stat(e.event.fflags, 0, 0, 0, 0, e.triggered)
  }

  function Hit(st: Stat, e: Event): Stat {
    st.(triggers := st.triggers + 1, unreported := st.unreported + 1,
        wraps := if e.event.fflags + 1 == U32 then st.wraps + 1 else st.wraps)
  }

  function Tallied(st: Stat, e: Event): Stat {
    st.(reported := st.reported + e.event.fflags, unreported := 0, armed := false)
  }

  function Tally(es: seq<Event>, stats: seq<Stat>, num: int): seq<Stat>
    requires |stats| == |es|
  {
    seq(|es|, i requires 0 <= i < |es| => if Taken(es, num, i) then Tallied(stats[i], es[i]) else stats[i])
  }

  function Collected(s: Sys, num: int): Sys
    requires |s.stats| == |s.events|
  {
    s.(events := Collect(s.events, num).rest, stats := Tally(s.events, s.stats, num))
  }

  function Apply(s: Sys, a: Action): Sys
    requires Enabled(s, a) && |s.stats| == |s.events|
  {
    match a
    case AddEvent(e) =>
      var i := FindLike(s.events, e);
      s.(events := Add(s.events, e), owed := s.owed + if e.triggered then 1 else 0,
         stats := if i < |s.stats| then s.stats[i := Opened(e)] else s.stats + [Opened(e)])
    case TriggerEvent(ident, filter, data) =>
      var i := Find(s.events, ident, filter);
      if i == |s.events| then s
      else s.(events := Trigger(s.events, ident, filter, data), stats := s.stats[i := Hit(s.stats[i], s.events[i])],
              owed := s.owed + 1)
    case DeleteEvent(ident, filter) =>
      var i := Find(s.events, ident, filter);
      if i == |s.events| then s
      else s.(events := Delete(s.events, ident, filter), stats := s.stats[..i] + s.stats[i + 1..])
    case PollEvents(num) => Collected(s, num)
    case WaitArrive(tid, num) => if HasEvents(s.events) then Collected(s, num) else s.(parked := s.parked[tid := num])
    case WaitCheck(tid) =>
      var t := s.(woken := s.woken - {tid});
      if HasEvents(s.events) then Collected(t.(parked := s.parked - {tid}), s.parked[tid]) else t
    case WaitTimeout(tid) =>
      Collected(s.(woken := s.woken - {tid}, parked := s.parked - {tid}), s.parked[tid])
    case Notify => s.(owed := s.owed - 1, woken := s.woken + s.parked.Keys)
  }

  ghost predicate Runs(s: Sys, acts: seq<Action>, t: Sys)
    decreases |acts|
  {
    if acts == [] then s == t
    else |s.stats| == |s.events| && Enabled(s, acts[0]) && Runs(Apply(s, acts[0]), acts[1..], t)
  }

  // ---- invariants ----

  predicate Booked(e: Event, st: Stat) {
    && st.initial + st.triggers == (if Edge(e) then st.reported else 0) + e.event.fflags + st.wraps * U32
    && (st.unreported > 0 ==> e.triggered)
    && (Edge(e) && e.triggered ==> st.unreported > 0 || st.armed)
  }

  predicate Booking(s: Sys) {
    && |s.stats| == |s.events|
    && (forall i :: 0 <= i < |s.events| ==> Booked(s.events[i], s.stats[i]))
  }

  predicate Awake(s: Sys) {
    && s.woken <= s.parked.Keys
    && (HasEvents(s.events) && s.owed == 0 ==> s.parked.Keys <= s.woken)
  }

  predicate Inv(s: Sys) {
    UniqueKeys(s.events) && Booking(s) && Awake(s)
  }

  lemma FiredBooked(e: Event, st: Stat, data: int)
    requires Booked(e, st)
    ensures Booked(Fired(e, data), Hit(st, e))
  {
    assert ToU32(e.event.fflags + 1) == if e.event.fflags + 1 == U32 then 0 else e.event.fflags + 1;
  }

  lemma ReportedBooked(e: Event, st: Stat)
    requires Booked(e, st)
    ensures Booked(Reported(e), Tallied(st, e))
  {
  }

  lemma CollectedBooking(s: Sys, num: int)
    requires Booking(s)
    ensures Booking(Collected(s, num))
  {
    CollectLeaves(s.events, num);
    forall i | 0 <= i < |s.events| ensures Booked(Collected(s, num).events[i], Collected(s, num).stats[i]) {
      ReportedBooked(s.events[i], s.stats[i]);
    }
  }

  lemma TriggeredBooking(s: Sys, ident: nat, filter: int, data: int)
    requires Booking(s)
    ensures Booking(Apply(s, TriggerEvent(ident, filter, data)))
  {
    var i := Find(s.events, ident, filter);
    if i < |s.events| {
      FiredBooked(s.events[i], s.stats[i], data);
    }
  }

  lemma AddedBooking(s: Sys, e: Event)
    requires Booking(s)
    ensures Booking(Apply(s, AddEvent(e)))
  {
    AddIs(s.events, e);
  }

  lemma DeletedBooking(s: Sys, ident: nat, filter: int)
    requires Booking(s)
    ensures Booking(Apply(s, DeleteEvent(ident, filter)))
  {
    DeleteIs(s.events, ident, filter);
  }

  lemma StepBooking(s: Sys, a: Action)
    requires Booking(s) && Enabled(s, a)
    ensures Booking(Apply(s, a))
  {
    match a
    case AddEvent(e) => AddedBooking(s, e);
    case TriggerEvent(ident, filter, data) => TriggeredBooking(s, ident, filter, data);
    case DeleteEvent(ident, filter) => DeletedBooking(s, ident, filter);
    case PollEvents(num) => CollectedBooking(s, num);
    case WaitArrive(tid, num) => CollectedBooking(s, num);
    case WaitCheck(tid) => CollectedBooking(s, s.parked[tid]);
    case WaitTimeout(tid) => CollectedBooking(s, s.parked[tid]);
    case Notify =>
  }

  lemma StepKeys(s: Sys, a: Action)
    requires UniqueKeys(s.events) && |s.stats| == |s.events| && Enabled(s, a)
    ensures UniqueKeys(Apply(s, a).events)
  {
    match a
    case AddEvent(e) => AddKeepsKeys(s.events, e);
    case TriggerEvent(ident, filter, data) =>
    case DeleteEvent(ident, filter) => DeleteKeepsKeys(s.events, ident, filter);
    case PollEvents(num) => CollectKeepsKeys(s.events, num);
    case WaitArrive(tid, num) => CollectKeepsKeys(s.events, num);
    case WaitCheck(tid) => CollectKeepsKeys(s.events, s.parked[tid]);
    case WaitTimeout(tid) => CollectKeepsKeys(s.events, s.parked[tid]);
    case Notify =>
  }

  /** A collection triggers nothing, and neither does removing an event. */
  lemma CollectIsQuiet(es: seq<Event>, num: int)
    ensures HasEvents(Collect(es, num).rest) ==> HasEvents(es)
  {
    CollectLeaves(es, num);
    if HasEvents(Collect(es, num).rest) {
      var i :| 0 <= i < |es| && Collect(es, num).rest[i].triggered;
      assert es[i].triggered;
    }
  }

  lemma DeleteIsQuiet(es: seq<Event>, ident: nat, filter: int)
    ensures HasEvents(Delete(es, ident, filter)) ==> HasEvents(es)
  {
    var less, at := Delete(es, ident, filter), Find(es, ident, filter);
    if HasEvents(less) {
      var i :| 0 <= i < |less| && less[i].triggered;
      assert es[if i < at then i else i + 1].triggered;
    }
  }

  lemma AddTriggers(es: seq<Event>, e: Event)
    requires HasEvents(Add(es, e)) && !e.triggered
    ensures HasEvents(es)
  {
    var i :| 0 <= i < |Add(es, e)| && Add(es, e)[i].triggered;
    assert es[i].triggered;
  }

  lemma StepAwake(s: Sys, a: Action)
    requires Awake(s) && |s.stats| == |s.events| && Enabled(s, a)
    ensures Awake(Apply(s, a))
  {
    match a
    case AddEvent(e) =>
      if HasEvents(Add(s.events, e)) && !e.triggered {
        AddTriggers(s.events, e);
      }
    case TriggerEvent(ident, filter, data) =>
    case DeleteEvent(ident, filter) => DeleteIsQuiet(s.events, ident, filter);
    case PollEvents(num) => CollectIsQuiet(s.events, num);
    case WaitArrive(tid, num) => CollectIsQuiet(s.events, num);
    case WaitCheck(tid) => CollectIsQuiet(s.events, s.parked[tid]);
    case WaitTimeout(tid) => CollectIsQuiet(s.events, s.parked[tid]);
    case Notify =>
  }

  lemma {:induction false} RunInv(s: Sys, acts: seq<Action>, t: Sys)
    requires Inv(s) && Runs(s, acts, t)
    ensures Inv(t)
    decreases |acts|
  {
    if acts != [] {
      StepBooking(s, acts[0]);
      StepKeys(s, acts[0]);
      StepAwake(s, acts[0]);
      RunInv(Apply(s, acts[0]), acts[1..], t);
    }
  }

  // ---- theorems ----

  /** Whatever is added, triggered, removed and collected, no two events share a key. */
  lemma KeysStayUnique(acts: seq<Action>, t: Sys)
    requires Runs(Init(), acts, t)
    ensures UniqueKeys(t.events)
  {
    RunInv(Init(), acts, t);
  }

  /**
    For an event that clears when reported, the triggers since it was added and the `fflags` it
    was added with are accounted for by what was reported and what it holds now: always modulo
    2^32, and exactly if they fit a `uint32_t`.
   */
  lemma TriggersAreConserved(acts: seq<Action>, t: Sys, i: nat)
    requires Runs(Init(), acts, t) && i < |t.events| && Edge(t.events[i])
    ensures |t.stats| == |t.events|
    ensures ToU32(t.stats[i].initial + t.stats[i].triggers) == ToU32(t.stats[i].reported + t.events[i].event.fflags)
    ensures t.stats[i].initial + t.stats[i].triggers < U32 ==>
      t.stats[i].initial + t.stats[i].triggers == t.stats[i].reported + t.events[i].event.fflags
  {
    RunInv(Init(), acts, t);
    assert Booked(t.events[i], t.stats[i]);
    AddMultiple(t.stats[i].reported + t.events[i].event.fflags, t.stats[i].wraps);
  }

  /**
    A trigger not yet reported is never dropped: the event stays triggered, and the next
    collection with room for all events reports it.
   */
  lemma TriggersAreReported(acts: seq<Action>, t: Sys, i: nat, num: int)
    requires Runs(Init(), acts, t) && i < |t.events| <= num && |t.stats| == |t.events| && t.stats[i].unreported > 0
    ensures t.events[i].triggered && t.events[i].event in Collect(t.events, num).out
  {
    RunInv(Init(), acts, t);
    assert Booked(t.events[i], t.stats[i]);
    AllPendingAreReported(t.events, num, i);
  }

  /**
    A report is not repeated: an event that clears and has had no trigger since it was last
    reported, or since it was added untriggered, is not triggered, and no collection reports its key.
   */
  lemma ReportsAreNotRepeated(acts: seq<Action>, t: Sys, i: nat, num: int)
    requires Runs(Init(), acts, t) && i < |t.events| && |t.stats| == |t.events|
    requires Edge(t.events[i]) && t.stats[i].unreported == 0 && !t.stats[i].armed
    ensures !t.events[i].triggered
    ensures forall k :: k in Collect(t.events, num).out ==> k.ident != t.events[i].event.ident || k.filter != t.events[i].event.filter
  {
    RunInv(Init(), acts, t);
    assert Booked(t.events[i], t.stats[i]);
    CollectReports(t.events, num);
    forall k | k in Collect(t.events, num).out ensures k.ident != t.events[i].event.ident || k.filter != t.events[i].event.filter {
      var j := PendingIsFrom(t.events, k);
    }
  }

  /** While something is triggered, a sleeper has a notification on its way. */
  lemma NoWakeUpIsLost(acts: seq<Action>, t: Sys, tid: int)
    requires Runs(Init(), acts, t) && tid in t.parked && HasEvents(t.events)
    ensures t.owed > 0 || tid in t.woken
  {
    RunInv(Init(), acts, t);
  }
}
