/**
  core/kernel/eventqueue.cpp as an object: a list of events that searches and collections walk
  and change in place. Each method is one section under the mutex.
 */
module EventQueue {
  import opened Words
  import opened EventQueueSpec

  datatype Code = Ok | ENOENT

  class KernelEqueue {
    var events: seq<Event>

    constructor ()
      ensures events == []
    {
      events := [];
    }

    /** The search shared by addEvent, triggerEvent and deleteEvent: 240-241, 262, 284 */
    method FindEvent(ident: nat, filter: int) returns (it: nat)
      ensures it == Find(events, ident, filter)
    {
      it := 0;
      while it < |events| && !IsAt(events[it], ident, filter)
        invariant it <= |events|
        invariant Find(events, ident, filter) == it + Find(events[it..], ident, filter)
      {
        assert events[it..][1..] == events[it + 1..];
        it := it + 1;
      }
    }

    /** addEvent: 234-255; `notifies` tells whether sleepers are notified afterwards */
    method AddEvent(event: Event) returns (notifies: bool)
      modifies this
      ensures events == Add(old(events), event) && notifies == event.triggered
    {
      var it := FindEvent(Widen(event.event.ident), event.event.filter);
      if it != |events| {
        events := events[it := event];
      } else {
        events := events + [event];
      }
      return event.triggered;
    }

    /** triggerEvent: 257-277 */
    method TriggerEvent(ident: nat, filter: int, triggerData: int) returns (ret: Code)
      modifies this
      ensures ret == ENOENT <==> Find(old(events), ident, filter) == |old(events)|
      ensures events == Trigger(old(events), ident, filter, triggerData)
      ensures |events| == |old(events)|
    {
      var it := FindEvent(ident, filter);
      if it == |events| {
        return ENOENT;
      }
      var ev := events[it];
      if ev.onTrigger != NoHook {
        ev := Fired(ev, triggerData);
      } else {
        ev := ev.(triggered := true);
        ev := ev.(event := ev.event.(fflags := ToU32(ev.event.fflags + 1)));
      }
      events := events[it := ev];
      return Ok;
    }

    /** deleteEvent: 279-295 */
    method DeleteEvent(ident: nat, filter: int) returns (ret: Code)
      modifies this
      ensures ret == ENOENT <==> Find(old(events), ident, filter) == |old(events)|
      ensures events == Delete(old(events), ident, filter)
    {
      var it := FindEvent(ident, filter);
      if it == |events| {
        return ENOENT;
      }
      events := events[..it] + events[it + 1..];
      return Ok;
    }

    /** The predicate of waitForEvents: 82-89 */
    method HasTriggered() returns (found: bool)
      ensures found == HasEvents(events)
    {
      for i := 0 to |events|
        invariant forall k :: 0 <= k < i ==> !events[k].triggered
      {
        if events[i].triggered {
          return true;
        }
      }
      return false;
    }

    /**
      getTriggeredEvents: 101-120. The caller's buffer must have room for what may be reported:
      `num` entries, and one even for a smaller `num`.
     */
    method GetTriggeredEvents(eventList: array<KernelEvent>, num: int) returns (countTriggered: nat)
      requires 1 <= eventList.Length && num <= eventList.Length
      modifies this, eventList
      ensures events == Collect(old(events), num).rest
      ensures countTriggered <= eventList.Length && eventList[..countTriggered] == Collect(old(events), num).out
      ensures forall k :: countTriggered <= k < eventList.Length ==> eventList[k] == old(eventList[k])
      ensures |events| == |old(events)|
      ensures forall i :: 0 <= i < |events| ==>
        if Taken(old(events), num, i) then IsReported(old(events)[i], events[i]) else events[i] == old(events)[i]
      ensures var n := if num <= 1 then 1 else num;
        countTriggered == if |Pending(old(events))| < n then |Pending(old(events))| else n
      ensures eventList[..countTriggered] == Pending(old(events))[..countTriggered]
    {
      CollectLeaves(events, num);
      CollectReports(events, num);
      countTriggered := Fill(eventList, num);
    }

    /** The loop of getTriggeredEvents: 103-118 */
    method Fill(eventList: array<KernelEvent>, num: int) returns (countTriggered: nat)
      requires 1 <= eventList.Length && num <= eventList.Length
      modifies this, eventList
      ensures events == Collect(old(events), num).rest
      ensures countTriggered <= eventList.Length && eventList[..countTriggered] == Collect(old(events), num).out
      ensures forall k :: countTriggered <= k < eventList.Length ==> eventList[k] == old(eventList[k])
    {
      ghost var whole := Collect(events, num);
      ghost var out, done, todo := [], [], events;
      countTriggered := 0;
      var i := 0;
      while i < |events|
        invariant i == |done| <= |events| && events == done + todo && (countTriggered == 0 || countTriggered < num)
        invariant countTriggered <= eventList.Length && eventList[..countTriggered] == out
        invariant Underway(whole, out, done, todo, num - countTriggered)
        invariant forall k :: countTriggered <= k < eventList.Length ==> eventList[k] == old(eventList[k])
      {
        var ev := events[i];
        Replaced(done, todo, ev);
        Unfold(whole, out, done, todo, num - countTriggered);
        if ev.triggered {
          out := out + [ev.event];
          Report(i, eventList, countTriggered);
          countTriggered := countTriggered + 1;
          ev := events[i];
          Replaced(done, todo, ev);
          if countTriggered >= num {
            return;
          }
        }
        i := i + 1;
        done := done + [ev];
        todo := todo[1..];
      }
      assert todo == [] && events == done;
    }

    /** One event goes into the buffer and is reset if it asks for that: 107-111 */
    method Report(i: nat, eventList: array<KernelEvent>, at: nat)
      requires i < |events| && at < eventList.Length
      modifies this, eventList
      ensures events == old(events)[i := Reported(old(events)[i])]
      ensures eventList[..at + 1] == old(eventList[..at]) + [old(events)[i].event]
      ensures forall k :: at + 1 <= k < eventList.Length ==> eventList[k] == old(eventList[k])
    {
      var ev := events[i];
      eventList[at] := ev.event;
      if ev.event.clear && ev.onReset != NoHook {
        ev := Reset(ev);
      }
      events := events[i := ev];
    }
  }

  /** Changing the first of the events still to come. */
  lemma Replaced(done: seq<Event>, todo: seq<Event>, ev: Event)
    requires todo != []
    ensures (done + todo)[|done|] == todo[0]
    ensures (done + todo)[|done| := ev] == (done + [ev]) + todo[1..]
  {
  }

  /** What has been reported and walked over, with what is still to come, makes up the whole. */
  ghost predicate Underway(whole: Collection, out: seq<KernelEvent>, done: seq<Event>, todo: seq<Event>, num: int) {
    whole.out == out + Collect(todo, num).out && whole.rest == done + Collect(todo, num).rest
  }

  lemma Unfold(whole: Collection, out: seq<KernelEvent>, done: seq<Event>, todo: seq<Event>, num: int)
    requires todo != [] && Underway(whole, out, done, todo, num)
    ensures !todo[0].triggered ==> Underway(whole, out, done + [todo[0]], todo[1..], num)
    ensures todo[0].triggered && num > 1 ==>
      Underway(whole, out + [todo[0].event], done + [Reported(todo[0])], todo[1..], num - 1)
    ensures todo[0].triggered && num <= 1 ==>
      whole.out == out + [todo[0].event] && whole.rest == done + [Reported(todo[0])] + todo[1..]
  {
  }
}
