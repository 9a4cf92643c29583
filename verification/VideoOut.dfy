/**
  The image handler and the video output as objects. A submitter's call crosses two locks, so
  each critical section is a method of its own.
 */
module VideoOut {
  import opened Words
  import opened FlipSpec
  import opened EventQueueSpec
  import opened EventQueue

  /** VIDEO_OUT_EVENT_FLIP, VIDEO_OUT_EVENT_VBLANK and KERNEL_EVFILT_VIDEO_OUT */
  const EVENT_FLIP: nat := 0
  const EVENT_VBLANK: nat := 1
  const VIDEO_OUT: int := -13

  /** The vblank status of a window. */
  datatype Vblank = Vblank(count: nat, tsc: nat, processTime: nat)

  /** What else a window keeps: the times of its flip status, its vblank status, and the queues that listen. */
  datatype Context = Context(submitTsc: nat, tsc: nat, processTime: nat, vblank: Vblank,
                             eventFlip: seq<KernelEqueue>, eventVblank: seq<KernelEqueue>)

  /** The context after a flip at these times, which is a vblank too. */
  predicate IsStamped(c: Context, d: Context, curTime: nat, procTime: nat) {
    && d.tsc == procTime && d.processTime == curTime
    && d.vblank.count == c.vblank.count + 1 && d.vblank.tsc == procTime && d.vblank.processTime == curTime
    && d.submitTsc == c.submitTsc && d.eventFlip == c.eventFlip && d.eventVblank == c.eventVblank
  }

  /**
    A queue before and after it was told `vblanks` times of a vblank and `flips` times of a flip:
    its vblank event has fired that often with the count, its flip event with the argument, and no
    other event has changed.
   */
  predicate Heard(es: seq<Event>, fs: seq<Event>, vblanks: nat, count: nat, flips: nat, flipArg: int) {
    var i, j := Find(es, EVENT_VBLANK, VIDEO_OUT), Find(es, EVENT_FLIP, VIDEO_OUT);
    && |fs| == |es|
    && (i < |es| && vblanks > 0 ==> IsFired(es[i], fs[i], count, vblanks))
    && (j < |es| && flips > 0 ==> IsFired(es[j], fs[j], flipArg, flips))
    && (forall k :: 0 <= k < |es| && !(k == i && vblanks > 0) && !(k == j && flips > 0) ==> fs[k] == es[k])
  }

  /** A queue after one vblank and one flip: it gets each as often as it is registered for it. */
  function Notified(c: Context, q: KernelEqueue, es: seq<Event>, flipArg: int): seq<Event> {
    TriggerTimes(TriggerTimes(es, EVENT_VBLANK, VIDEO_OUT, c.vblank.count, Count(c.eventVblank, q)),
                 EVENT_FLIP, VIDEO_OUT, flipArg, Count(c.eventFlip, q))
  }

  /** How often a queue is in a list. */
  function Count(queues: seq<KernelEqueue>, q: KernelEqueue): nat {
    if queues == [] then 0 else Count(queues[..|queues| - 1], q) + if queues[|queues| - 1] == q then 1 else 0
  }

  lemma {:induction false} CountIs(queues: seq<KernelEqueue>, q: KernelEqueue)
    ensures Count(queues, q) == multiset(queues)[q]
  {
    if queues != [] {
      var n := |queues| - 1;
      CountIs(queues[..n], q);
      assert queues == queues[..n] + [queues[n]];
    }
  }

  lemma NotifiedIsHeard(c: Context, q: KernelEqueue, es: seq<Event>, flipArg: int)
    ensures Heard(es, Notified(c, q, es, flipArg), multiset(c.eventVblank)[q], c.vblank.count, multiset(c.eventFlip)[q], flipArg)
  {
    CountIs(c.eventVblank, q);
    CountIs(c.eventFlip, q);
    TwiceTriggered(es, Count(c.eventVblank, q), c.vblank.count, Count(c.eventFlip, q), flipArg);
  }

  lemma TwiceTriggered(es: seq<Event>, vblanks: nat, count: nat, flips: nat, flipArg: int)
    ensures Heard(es, TriggerTimes(TriggerTimes(es, EVENT_VBLANK, VIDEO_OUT, count, vblanks), EVENT_FLIP, VIDEO_OUT, flipArg, flips),
                  vblanks, count, flips, flipArg)
  {
    var fs := TriggerTimes(es, EVENT_VBLANK, VIDEO_OUT, count, vblanks);
    if vblanks > 0 {
      TriggerTimesIs(es, EVENT_VBLANK, VIDEO_OUT, count, vblanks);
    }
    if flips > 0 {
      TriggerTimesIs(fs, EVENT_FLIP, VIDEO_OUT, flipArg, flips);
    }
    FindIsFirst(es, EVENT_VBLANK, VIDEO_OUT);
    FindIsFirst(es, EVENT_FLIP, VIDEO_OUT);
    FindAgain(es, fs, EVENT_FLIP, VIDEO_OUT);
  }

  lemma CountNext(queues: seq<KernelEqueue>, n: nat, q: KernelEqueue)
    requires n < |queues|
    ensures Count(queues[..n + 1], q) == Count(queues[..n], q) + if queues[n] == q then 1 else 0
  {
    assert queues[..n + 1][..n] == queues[..n];
  }

  method TriggerNext(q: KernelEqueue, ident: nat, data: int, ghost es: seq<Event>, ghost n: nat)
    requires q.events == TriggerTimes(es, ident, VIDEO_OUT, data, n)
    modifies q
    ensures q.events == TriggerTimes(es, ident, VIDEO_OUT, data, n + 1)
  {
    var ret := q.TriggerEvent(ident, VIDEO_OUT, data);
  }

  lemma {:induction false} CountNone(queues: seq<KernelEqueue>, q: KernelEqueue)
    requires q !in queues
    ensures Count(queues, q) == 0
  {
    if queues != [] {
      CountNone(queues[..|queues| - 1], q);
    }
  }

  /** Triggers an event in each queue of a list: 623-625, 660-662 */
  method Raise(queues: seq<KernelEqueue>, ident: nat, data: int)
    modifies queues
    ensures forall q {:trigger Count(queues, q)} :: q in queues ==> q.events == TriggerTimes(old(q.events), ident, VIDEO_OUT, data, Count(queues, q))
  {
    for n := 0 to |queues|
      invariant forall q {:trigger Count(queues[..n], q)} :: q in queues ==>
        q.events == TriggerTimes(old(q.events), ident, VIDEO_OUT, data, Count(queues[..n], q))
    {
      forall q | q in queues {
        CountNext(queues, n, q);
      }
      ghost var q := queues[n];
      TriggerNext(queues[n], ident, data, old(q.events), Count(queues[..n], q));
    }
    assert queues[..|queues|] == queues;
  }

  datatype Acquisition = Acquired(image: Image) | Refused | StillTrying

  class ImageHandler {
    const maxImages: nat
    var nextIndex: nat
    var countImages: nat
    var waitId: nat
    var presentCount: nat

    constructor (maxImages: nat)
      requires maxImages >= 1
      ensures Abs() == Tickets(maxImages, 0, 1, 0, 0)
    {
      this.maxImages := maxImages;
      nextIndex, countImages, waitId, presentCount := 0, 0, 0, 1;
    }

    function Abs(): Tickets
      reads this
    {
      Tickets(maxImages, waitId, presentCount, countImages, nextIndex)
    }

    /** getImage_blocking up to the wait: 138-142 */
    method TakeTicket() returns (ticket: nat)
      modifies this
      ensures Abs() == FlipSpec.TakeTicket(old(Abs())) && ticket == waitId
    {
      waitId := waitId + 1;
      ticket := waitId;
    }

    /**
      getImage_blocking once the wait is over: 147-205. `results` is what successive calls of
      vkAcquireNextImageKHR return. A success on the third counted try is refused all the same.
     */
    method Acquire(ticket: nat, results: seq<VkResult>) returns (outcome: Acquisition)
      requires maxImages >= 1 && MayTake(Abs(), ticket)
      modifies this
      ensures outcome.Acquired? <==> Keeps(results)
      ensures outcome.Refused? <==> !Keeps(results) && |Counted(results)| >= 3
      ensures outcome.Acquired? ==> outcome.image == Image(ticket, old(nextIndex)) && Abs() == FlipSpec.Acquire(old(Abs()))
      ensures outcome.Refused? ==> Abs() == FakePresent(old(Abs()))
      ensures outcome.StillTrying? ==> Abs() == old(Abs())
    {
      var numTries := 2;
      var i := 0;
      var succeeded := false;
      while numTries >= 0 && i < |results| && !succeeded
        invariant 0 <= i <= |results| && -1 <= numTries <= 2
        invariant !succeeded ==> |Counted(results[..i])| == 2 - numTries && Success !in Counted(results[..i])
        invariant succeeded ==> 0 <= numTries && |Counted(results[..i])| == 3 - numTries
        invariant succeeded ==> Counted(results[..i])[2 - numTries] == Success
        invariant succeeded ==> forall k :: 0 <= k < 2 - numTries ==> Counted(results[..i])[k] != Success
        invariant unchanged(this)
        decreases |results| - i
      {
        var result := results[i];
        CountedAppend(results[..i], [result]);
        assert results[..i + 1] == results[..i] + [result];
        assert Counted([result]) == if Uncounted(result) then [] else [result];
        i := i + 1;
        if result != Success {
          if result == Suboptimal || result == OutOfDate || result == Timeout {
            numTries := numTries + 1;
          }
          numTries := numTries - 1;
        } else {
          succeeded := true;
        }
      }
      CountedAppend(results[..i], results[i..]);
      assert results == results[..i] + results[i..];
      if !succeeded && numTries >= 0 {
        assert results[..i] == results;
        return StillTrying;
      }
      if numTries <= 0 {
        presentCount := presentCount + 1;
        return Refused;
      }
      var image := Image(ticket, nextIndex);
      nextIndex := (nextIndex + 1) % maxImages;
      countImages := ToU32(countImages + 1);
      return Acquired(image);
    }

    /** notify_done: 217-223 */
    method NotifyDone()
      modifies this
      ensures Abs() == FlipSpec.NotifyDone(old(Abs()))
    {
      presentCount := presentCount + 1;
      countImages := ToU32(countImages - 1);
    }
  }

  class VideoOutput {
    const windows: array<FlipStatus>
    const contexts: array<Context>
    var messages: seq<Message>

    constructor (numWindows: nat)
      ensures Routed() && Abs() == Video(seq(numWindows, _ => FlipStatus(0, 0, 0)), []) && fresh(windows) && fresh(contexts)
      ensures windows.Length == contexts.Length == numWindows
      ensures forall w :: 0 <= w < numWindows ==> contexts[w] == Context(0, 0, 0, Vblank(0, 0, 0), [], [])
    {
      windows := new FlipStatus[numWindows](_ => FlipStatus(0, 0, 0));
      contexts := new Context[numWindows](_ => Context(0, 0, 0, Vblank(0, 0, 0), [], []));
      messages := [];
    }

    function Abs(): Video
      reads this, windows
    {
      Video(windows[..], messages)
    }

    predicate Routed()
      reads this
    {
      && windows.Length == contexts.Length
      && (forall i :: 0 <= i < |messages| && messages[i].Flip? ==> messages[i].window < windows.Length)
    }

    /** The queues that listen to a window. */
    function Listeners(w: nat): set<KernelEqueue>
      requires w < contexts.Length
      reads contexts
    {
      set q | q in contexts[w].eventFlip + contexts[w].eventVblank
    }

    /** addEvent for flips: 500-511 */
    method AddFlipEvent(handle: nat, event: Event, eq: KernelEqueue)
      requires 1 <= handle <= contexts.Length && event.event.ident == EVENT_FLIP
      modifies contexts, eq
      ensures eq.events == Add(old(eq.events), event)
      ensures contexts[..] == old(contexts[..])[handle - 1 := old(contexts[handle - 1]).(eventFlip := old(contexts[handle - 1]).eventFlip + [eq])]
    {
      var notifies := eq.AddEvent(event);
      var w := handle - 1;
      contexts[w] := contexts[w].(eventFlip := contexts[w].eventFlip + [eq]);
    }

    /**
      submitFlip and eventDoFlip after the image handler answered: 579-604, 266-293. The clock's
      answers are parameters.
     */
    method SubmitFlip(handle: nat, flipArg: int, imageData: Option<Image>, submitTime: nat, curTime: nat, procTime: nat)
      requires 1 <= handle <= windows.Length && Routed()
      modifies this`messages, windows, contexts, Listeners(handle - 1)
      ensures Routed() && Abs() == Submit(old(Abs()), handle - 1, flipArg, imageData)
      ensures contexts[..] == old(contexts[..])[handle - 1 := contexts[handle - 1]] && contexts[handle - 1].submitTsc == submitTime
      ensures var submitted, c := old(contexts[handle - 1]).(submitTsc := submitTime), contexts[handle - 1];
        if imageData.None? then IsStamped(submitted, c, curTime, procTime) else c == submitted
      ensures imageData.Some? ==> forall q :: q in old(Listeners(handle - 1)) ==> q.events == old(q.events)
      ensures imageData.None? ==> forall q :: q in old(Listeners(handle - 1)) ==>
        Heard(old(q.events), q.events, multiset(contexts[handle - 1].eventVblank)[q], contexts[handle - 1].vblank.count,
              multiset(contexts[handle - 1].eventFlip)[q], flipArg)
    {
      var w := handle - 1;
      windows[w] := windows[w].(gcQueueNum := windows[w].gcQueueNum + 1);
      windows[w] := windows[w].(flipArg := flipArg);
      contexts[w] := contexts[w].(submitTsc := submitTime);
      match imageData
      case None =>
        DoFlip(handle, curTime, procTime);
      case Some(image) =>
        messages := messages + [Flip(w, image)];
    }

    /** doFlip: 608-627. Both events follow: the vblank's with its count, the flip's with the argument submitted last. */
    method DoFlip(handle: nat, curTime: nat, procTime: nat)
      requires 1 <= handle <= windows.Length == contexts.Length
      modifies windows, contexts, Listeners(handle - 1)
      ensures windows[..] == old(windows[..])[handle - 1 := Flipped(old(windows[handle - 1]))]
      ensures contexts[..] == old(contexts[..])[handle - 1 := contexts[handle - 1]]
      ensures IsStamped(old(contexts[handle - 1]), contexts[handle - 1], curTime, procTime)
      ensures forall q :: q in old(Listeners(handle - 1)) ==>
        Heard(old(q.events), q.events, multiset(contexts[handle - 1].eventVblank)[q], contexts[handle - 1].vblank.count,
              multiset(contexts[handle - 1].eventFlip)[q], windows[handle - 1].flipArg)
    {
      var w := handle - 1;
      contexts[w] := contexts[w].(tsc := procTime, processTime := curTime);
      windows[w] := windows[w].(count := windows[w].count + 1);
      windows[w] := windows[w].(gcQueueNum := windows[w].gcQueueNum - 1);
      VblankEnd(handle, curTime, procTime);
      ghost var c := contexts[w];
      forall q | q in old(Listeners(w)) ensures q in c.eventFlip || Count(c.eventFlip, q) == 0 {
        if q !in c.eventFlip {
          CountNone(c.eventFlip, q);
        }
      }
      forall q | q in old(Listeners(w)) ensures q.events == TriggerTimes(old(q.events), EVENT_VBLANK, VIDEO_OUT, c.vblank.count, Count(c.eventVblank, q)) {
        if q !in c.eventVblank {
          CountNone(c.eventVblank, q);
        }
      }
      Raise(contexts[w].eventFlip, EVENT_FLIP, windows[w].flipArg);
      forall q | q in old(Listeners(w))
        ensures Heard(old(q.events), q.events, multiset(c.eventVblank)[q], c.vblank.count, multiset(c.eventFlip)[q], windows[w].flipArg)
      {
        assert q.events == Notified(c, q, old(q.events), windows[w].flipArg);
        NotifiedIsHeard(c, q, old(q.events), windows[w].flipArg);
      }
    }

    /** vblankEnd: 648-663 */
    method VblankEnd(handle: nat, curTime: nat, curProcTime: nat)
      requires 1 <= handle <= contexts.Length
      modifies contexts, contexts[handle - 1].eventVblank
      ensures var c := old(contexts[handle - 1]);
        && contexts[..] == old(contexts[..])[handle - 1 := c.(vblank := Vblank(c.vblank.count + 1, curProcTime, curTime))]
        && (forall q :: q in c.eventVblank ==>
              q.events == TriggerTimes(old(q.events), EVENT_VBLANK, VIDEO_OUT, c.vblank.count + 1, Count(c.eventVblank, q)))
    {
      var w := handle - 1;
      contexts[w] := contexts[w].(vblank := Vblank(contexts[w].vblank.count + 1, curProcTime, curTime));
      Raise(contexts[w].eventVblank, EVENT_VBLANK, contexts[w].vblank.count);
    }

    /** The SDL thread completes the flip at the front, with the lock taken again: 1015-1031 */
    method CompleteFlip(curTime: nat, procTime: nat)
      requires messages != [] && messages[0].Flip? && Routed()
      modifies this`messages, windows, contexts, Listeners(messages[0].window)
      ensures Routed() && Abs() == Complete(old(Abs()))
      ensures var w := old(messages)[0].window;
        && contexts[..] == old(contexts[..])[w := contexts[w]] && IsStamped(old(contexts[..])[w], contexts[w], curTime, procTime)
        && (forall q :: q in old(contexts[..])[w].eventFlip + old(contexts[..])[w].eventVblank ==>
              Heard(old(q.events), q.events, multiset(contexts[w].eventVblank)[q], contexts[w].vblank.count,
                    multiset(contexts[w].eventFlip)[q], windows[w].flipArg))
    {
      var item := messages[0];
      DoFlip(1 + item.window, curTime, procTime);
      messages := messages[1..];
    }
  }

  /** A flip event as sceVideoOutAddFlipEvent registers it. */
  function FlipEvent(handle: Uint32): Event {
    Event(false, KernelEvent(EVENT_FLIP, VIDEO_OUT, true, handle, 0, 0), DeviceHook, DeviceHook)
  }

  lemma FlipEventHeard(es: seq<Event>, fs: seq<Event>, vblanks: nat, count: nat, flipArg: int)
    requires es == Add([], FlipEvent(1)) && Heard(es, fs, vblanks, count, 1, flipArg)
    ensures |fs| == 1 && fs[0].triggered && fs[0].event.data == flipArg && fs[0].event.fflags == 2
  {
    assert es == [FlipEvent(1)];
    assert Find(es, EVENT_FLIP, VIDEO_OUT) == 0;
  }

  /** A window with one queue that listens for flips, and two flips of it submitted. */
  method TwoSubmitted(first: int, second: int, a: Image, b: Image) returns (video: VideoOutput, queue: KernelEqueue)
    ensures fresh(video) && fresh(video.windows) && fresh(video.contexts) && fresh(queue) && video.Routed()
    ensures video.Abs() == Video([FlipStatus(2, 0, second)], [Flip(0, a), Flip(0, b)])
    ensures video.contexts.Length == 1 && video.contexts[0].eventFlip == [queue] && video.contexts[0].eventVblank == []
    ensures queue.events == Add([], FlipEvent(1))
  {
    queue := new KernelEqueue();
    video := new VideoOutput(1);
    video.AddFlipEvent(1, FlipEvent(1), queue);
    video.SubmitFlip(1, first, Some(a), 0, 0, 0);
    video.SubmitFlip(1, second, Some(b), 0, 0, 0);
  }

  /**
    Two flips are submitted before the first one is done. The event of the first one then carries
    the argument of the second.
   */
  method FirstFlipReportsSecond(first: int, second: int, a: Image, b: Image) returns (queue: KernelEqueue)
    ensures |queue.events| == 1 && queue.events[0].triggered
    ensures queue.events[0].event.data == second && queue.events[0].event.fflags == 2
  {
    var video;
    video, queue := TwoSubmitted(first, second, a, b);
    ghost var es := queue.events;
    assert queue in video.Listeners(0);
    assert video.Abs().messages[0] == Flip(0, a);
    video.CompleteFlip(0, 0);
    assert multiset([queue])[queue] == 1;
    FlipEventHeard(es, queue.events, multiset(video.contexts[0].eventVblank)[queue], video.contexts[0].vblank.count, second);
  }
}
