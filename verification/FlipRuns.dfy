/**
  Any number of submitters and the single SDL thread, before shutdown and with no window opened
  or closed. A step is one critical section under the video output's or the image handler's
  lock; presenting happens between two of them with neither lock held.
 */
module FlipRuns {
  import opened Words
  import opened FlipSpec

  datatype Pc =
    | Idle
    | Begun(window: nat)
    | Waiting(window: nat, ticket: nat)
    | Got(window: nat, image: Image)
    | Refused(window: nat)

  datatype Sdl = Ready | Presenting(message: Message) | Released(message: Message)

  datatype Served = Served(ticket: nat, faked: bool)

  /**
    `waiters` maps each ticket that still waits to its thread and `holder` names the thread
    between the two locks of a submission that got an image. `served` lists the tickets in the
    order they were served or faked; `submitted` counts finished submissions per window.
   */
  datatype Sys = Sys(
    h: Tickets,
    v: Video,
    pcs: map<int, Pc>,
    sdl: Sdl,
    waiters: map<nat, int>,
    holder: Option<int>,
    served: seq<Served>,
    submitted: seq<nat>)

  datatype Action =
    | Begin(tid: int, window: nat)
    | Ticket(tid: int)
    | TakeImage(tid: int)
    | Fake(tid: int)
    | Finish(tid: int, flipArg: int)
    | PushSubsystem
    | HandleSubsystem
    | Present
    | Release
    | FinishFlip

  function PcOf(s: Sys, tid: int): Pc {
    if tid in s.pcs then s.pcs[tid] else Idle
  }

  function Init(maxImages: nat, numWindows: nat): Sys {
    Sys(Tickets(maxImages, 0, 1, 0, 0), Video(seq(numWindows, _ => FlipStatus(0, 0, 0)), []),
        map[], Ready, map[], None, [], seq(numWindows, _ => 0))
  }

  predicate Enabled(s: Sys, a: Action) {
    match a
    case Begin(tid, w) => PcOf(s, tid).Idle? && w < |s.v.windows|
    case Ticket(tid) => PcOf(s, tid).Begun?
    case TakeImage(tid) => PcOf(s, tid).Waiting? && MayTake(s.h, PcOf(s, tid).ticket)
    case Fake(tid) => PcOf(s, tid).Waiting? && MayTake(s.h, PcOf(s, tid).ticket)
    case Finish(tid, _) => (PcOf(s, tid).Got? || PcOf(s, tid).Refused?) && PcOf(s, tid).window < |s.v.windows| == |s.submitted|
    case PushSubsystem => true
    case HandleSubsystem => s.sdl.Ready? && s.v.messages != [] && s.v.messages[0].Subsystem?
    case Present => s.sdl.Ready? && s.v.messages != [] && s.v.messages[0].Flip?
    case Release => s.sdl.Presenting?
    case FinishFlip =>
      && s.sdl.Released? && s.v.messages != [] && s.v.messages[0] == s.sdl.message
      && s.sdl.message.Flip? && s.sdl.message.window < |s.v.windows|
  }

  function Apply(s: Sys, a: Action): Sys
    requires Enabled(s, a) && s.h.maxImages >= 1
  {
    match a
    case Begin(tid, w) => s.(pcs := s.pcs[tid := Begun(w)])
    case Ticket(tid) =>
      var h := TakeTicket(s.h);
      s.(h := h, pcs := s.pcs[tid := Waiting(s.pcs[tid].window, h.waitId)], waiters := s.waiters[h.waitId := tid])
    case TakeImage(tid) =>
      var pc := s.pcs[tid];
      s.(h := Acquire(s.h), pcs := s.pcs[tid := Got(pc.window, Image(pc.ticket, s.h.nextIndex))],
         waiters := s.waiters - {pc.ticket}, holder := Some(tid), served := s.served + [Served(pc.ticket, false)])
    case Fake(tid) =>
      var pc := s.pcs[tid];
      s.(h := FakePresent(s.h), pcs := s.pcs[tid := Refused(pc.window)],
         waiters := s.waiters - {pc.ticket}, served := s.served + [Served(pc.ticket, true)])
    case Finish(tid, flipArg) =>
      var pc := s.pcs[tid];
      var image := if pc.Got? then Some(pc.image) else None;
      s.(v := Submit(s.v, pc.window, flipArg, image), pcs := s.pcs[tid := Idle],
         holder := if pc.Got? then None else s.holder,
         submitted := s.submitted[pc.window := s.submitted[pc.window] + 1])
    case PushSubsystem => s.(v := s.v.(messages := s.v.messages + [Subsystem]))
    case HandleSubsystem => s.(v := s.v.(messages := s.v.messages[1..]))
    case Present => s.(sdl := Presenting(s.v.messages[0]))
    case Release => s.(sdl := Released(s.sdl.message), h := NotifyDone(s.h))
    case FinishFlip => s.(sdl := Ready, v := Complete(s.v))
  }

  ghost predicate Runs(s: Sys, acts: seq<Action>, t: Sys)
    requires s.h.maxImages >= 1
    decreases |acts|
  {
    if acts == [] then s == t else Enabled(s, acts[0]) && Runs(Apply(s, acts[0]), acts[1..], t)
  }

  // ---- invariants ----

  /** The queued messages whose image has not been given back. */
  function Unreleased(s: Sys): seq<Message> {
    if s.sdl.Released? && s.v.messages != [] then s.v.messages[1..] else s.v.messages
  }

  /** Tickets: one image at most, owned by the ticket to be presented; the later ones wait. */
  ghost predicate TicketsInv(s: Sys) {
    && s.h.maxImages >= 1
    && s.h.countImages <= 1
    && 1 <= s.h.presentCount && s.h.presentCount + s.h.countImages <= s.h.waitId + 1
    && (forall k :: k in s.waiters <==> s.h.presentCount + s.h.countImages <= k <= s.h.waitId)
    && (forall k :: k in s.waiters ==> PcOf(s, s.waiters[k]).Waiting? && PcOf(s, s.waiters[k]).ticket == k)
    && (forall t :: t in s.pcs && s.pcs[t].Waiting? ==>
          s.pcs[t].ticket in s.waiters && s.waiters[s.pcs[t].ticket] == t)
  }

  /** The image that is out is in exactly one place. */
  ghost predicate ImageInv(s: Sys) {
    && (forall t :: t in s.pcs && s.pcs[t].Got? ==> s.holder == Some(t) && s.pcs[t].image.ticket == s.h.presentCount)
    && (s.holder.Some? ==> PcOf(s, s.holder.value).Got?)
    && Flips(Unreleased(s)) + (if s.holder.Some? then 1 else 0) == s.h.countImages
    && (forall i :: 0 <= i < |Unreleased(s)| && Unreleased(s)[i].Flip? ==> Unreleased(s)[i].image.ticket == s.h.presentCount)
  }

  ghost predicate SdlInv(s: Sys) {
    && (!s.sdl.Ready? ==> s.v.messages != [] && s.v.messages[0] == s.sdl.message && s.sdl.message.Flip?)
    && (forall i :: 0 <= i < |s.v.messages| && s.v.messages[i].Flip? ==> s.v.messages[i].window < |s.v.windows|)
    && (forall t :: t in s.pcs && !s.pcs[t].Idle? ==> s.pcs[t].window < |s.v.windows|)
  }

  ghost predicate PendingInv(s: Sys) {
    && |s.submitted| == |s.v.windows|
    && (forall w :: 0 <= w < |s.v.windows| ==>
          && s.v.windows[w].gcQueueNum == FlipsFor(s.v.messages, w)
          && s.submitted[w] == s.v.windows[w].count + s.v.windows[w].gcQueueNum)
  }

  ghost predicate ServedInv(s: Sys) {
    && |s.served| + 1 == s.h.presentCount + s.h.countImages
    && (forall i :: 0 <= i < |s.served| ==> s.served[i].ticket == i + 1)
  }

  ghost predicate Inv(s: Sys) {
    TicketsInv(s) && ImageInv(s) && SdlInv(s) && PendingInv(s) && ServedInv(s)
  }

  lemma InitInv(maxImages: nat, numWindows: nat)
    requires maxImages >= 1
    ensures Inv(Init(maxImages, numWindows))
  {
  }

  lemma ServeTickets(s: Sys, tid: int, a: Action)
    requires TicketsInv(s) && ImageInv(s) && (a == TakeImage(tid) || a == Fake(tid)) && Enabled(s, a)
    ensures TicketsInv(Apply(s, a))
  {
    assert s.waiters[s.pcs[tid].ticket] == tid;
  }

  lemma SubmitTickets(s: Sys, a: Action)
    requires TicketsInv(s) && ImageInv(s) && Enabled(s, a) && (a.Begin? || a.Ticket? || a.Finish?)
    ensures TicketsInv(Apply(s, a))
  {
  }

  lemma ReleaseTickets(s: Sys)
    requires TicketsInv(s) && ImageInv(s) && SdlInv(s) && Enabled(s, Release)
    ensures TicketsInv(Apply(s, Release))
  {
    FlipOut(s);
  }

  lemma StepTickets(s: Sys, a: Action)
    requires TicketsInv(s) && ImageInv(s) && SdlInv(s) && Enabled(s, a)
    ensures TicketsInv(Apply(s, a))
  {
    match a
    case Begin(tid, w) => SubmitTickets(s, a);
    case Ticket(tid) => SubmitTickets(s, a);
    case TakeImage(tid) => ServeTickets(s, tid, a);
    case Fake(tid) => ServeTickets(s, tid, a);
    case Finish(tid, flipArg) => SubmitTickets(s, a);
    case PushSubsystem =>
    case HandleSubsystem =>
    case Present =>
    case Release => ReleaseTickets(s);
    case FinishFlip =>
  }

  /** While the SDL thread presents, the image that is out is the one it presents. */
  lemma FlipOut(s: Sys)
    requires ImageInv(s) && SdlInv(s) && s.h.countImages <= 1 && s.sdl.Presenting?
    ensures s.h.countImages == 1 && s.holder.None? && Flips(s.v.messages[1..]) == 0
    ensures forall i :: 0 <= i < |s.v.messages[1..]| ==> !s.v.messages[1..][i].Flip?
  {
    NoFlips(s.v.messages[1..]);
  }

  lemma {:induction false} NoFlips(ms: seq<Message>)
    ensures Flips(ms) == 0 <==> forall i :: 0 <= i < |ms| ==> !ms[i].Flip?
  {
    if ms != [] {
      NoFlips(ms[1..]);
      assert ms[1..] == [] || ms[1..][0] == ms[1];
      assert forall i :: 1 <= i < |ms| ==> ms[i] == ms[1..][i - 1];
    }
  }

  lemma FinishImage(s: Sys, tid: int, flipArg: int)
    requires TicketsInv(s) && ImageInv(s) && SdlInv(s) && Enabled(s, Finish(tid, flipArg))
    ensures ImageInv(Apply(s, Finish(tid, flipArg)))
  {
    var pc := s.pcs[tid];
    if pc.Got? {
      var m := Flip(pc.window, pc.image);
      var t := Apply(s, Finish(tid, flipArg));
      FlipsAppend(Unreleased(s), m);
      assert Unreleased(t) == Unreleased(s) + [m];
    }
  }

  lemma ReleaseImage(s: Sys)
    requires TicketsInv(s) && ImageInv(s) && SdlInv(s) && Enabled(s, Release)
    ensures ImageInv(Apply(s, Release))
  {
    FlipOut(s);
  }

  lemma SubmitImage(s: Sys, a: Action)
    requires TicketsInv(s) && ImageInv(s) && SdlInv(s) && Enabled(s, a) && (a.Begin? || a.Ticket?)
    ensures ImageInv(Apply(s, a))
  {
  }

  lemma ServeImage(s: Sys, a: Action)
    requires TicketsInv(s) && ImageInv(s) && SdlInv(s) && Enabled(s, a) && (a.TakeImage? || a.Fake?)
    ensures ImageInv(Apply(s, a))
  {
    NoFlips(Unreleased(s));
  }

  lemma PushUnreleased(s: Sys)
    requires SdlInv(s) && s.h.maxImages >= 1
    ensures Unreleased(Apply(s, PushSubsystem)) == Unreleased(s) + [Subsystem]
  {
    if s.sdl.Released? {
      assert (s.v.messages + [Subsystem])[1..] == s.v.messages[1..] + [Subsystem];
    }
  }

  /** One more message that carries no image. */
  lemma MessageImage(s: Sys, t: Sys)
    requires ImageInv(s) && t.pcs == s.pcs && t.holder == s.holder && t.h == s.h
    requires Unreleased(t) == Unreleased(s) + [Subsystem]
    ensures ImageInv(t)
  {
    FlipsAppend(Unreleased(s), Subsystem);
  }

  lemma PushImage(s: Sys)
    requires TicketsInv(s) && ImageInv(s) && SdlInv(s)
    ensures ImageInv(Apply(s, PushSubsystem))
  {
    PushUnreleased(s);
    MessageImage(s, Apply(s, PushSubsystem));
  }

  lemma SdlImage(s: Sys, a: Action)
    requires TicketsInv(s) && ImageInv(s) && SdlInv(s) && Enabled(s, a) && (a.HandleSubsystem? || a.Present? || a.FinishFlip?)
    ensures ImageInv(Apply(s, a))
  {
  }

  lemma StepImage(s: Sys, a: Action)
    requires TicketsInv(s) && ImageInv(s) && SdlInv(s) && Enabled(s, a)
    ensures ImageInv(Apply(s, a))
  {
    match a
    case Begin(tid, w) => SubmitImage(s, a);
    case Ticket(tid) => SubmitImage(s, a);
    case TakeImage(tid) => ServeImage(s, a);
    case Fake(tid) => ServeImage(s, a);
    case Finish(tid, flipArg) => FinishImage(s, tid, flipArg);
    case PushSubsystem => PushImage(s);
    case HandleSubsystem => SdlImage(s, a);
    case Present => SdlImage(s, a);
    case Release => ReleaseImage(s);
    case FinishFlip => SdlImage(s, a);
  }

  lemma StepSdl(s: Sys, a: Action)
    requires SdlInv(s) && s.h.maxImages >= 1 && Enabled(s, a)
    ensures SdlInv(Apply(s, a))
  {
  }

  lemma FinishPending(s: Sys, tid: int, flipArg: int)
    requires SdlInv(s) && s.h.maxImages >= 1 && PendingInv(s) && Enabled(s, Finish(tid, flipArg))
    ensures PendingInv(Apply(s, Finish(tid, flipArg)))
  {
    var pc := s.pcs[tid];
    if pc.Got? {
      forall w | 0 <= w < |s.v.windows| {
        FlipsForAppend(s.v.messages, Flip(pc.window, pc.image), w);
      }
    }
  }

  lemma StepPending(s: Sys, a: Action)
    requires SdlInv(s) && s.h.maxImages >= 1 && PendingInv(s) && Enabled(s, a)
    ensures PendingInv(Apply(s, a))
  {
    match a
    case Begin(tid, w) =>
    case Ticket(tid) =>
    case TakeImage(tid) =>
    case Fake(tid) =>
    case Finish(tid, flipArg) => FinishPending(s, tid, flipArg);
    case PushSubsystem =>
      forall w | 0 <= w < |s.v.windows| {
        FlipsForAppend(s.v.messages, Subsystem, w);
      }
    case HandleSubsystem =>
    case Present =>
    case Release =>
    case FinishFlip =>
  }

  lemma StepServed(s: Sys, a: Action)
    requires TicketsInv(s) && ImageInv(s) && SdlInv(s) && ServedInv(s) && Enabled(s, a)
    ensures ServedInv(Apply(s, a))
  {
    if a.Release? {
      FlipOut(s);
    }
  }

  lemma {:induction false} RunInv(s: Sys, acts: seq<Action>, t: Sys)
    requires Inv(s) && Runs(s, acts, t)
    ensures Inv(t)
    decreases |acts|
  {
    if acts != [] {
      StepTickets(s, acts[0]);
      StepImage(s, acts[0]);
      StepSdl(s, acts[0]);
      StepPending(s, acts[0]);
      StepServed(s, acts[0]);
      RunInv(Apply(s, acts[0]), acts[1..], t);
    }
  }

  // ---- theorems ----

  /**
    In every reachable state a window's pending count is exactly the number of its queued flips,
    and over all windows no more than two flips are pending, whatever the number of images.
   */
  lemma PendingFlipsAreExactAndFew(maxImages: nat, numWindows: nat, acts: seq<Action>, t: Sys)
    requires maxImages >= 1 && Runs(Init(maxImages, numWindows), acts, t)
    ensures forall w :: 0 <= w < |t.v.windows| ==> t.v.windows[w].gcQueueNum == FlipsFor(t.v.messages, w)
    ensures Pending(t.v.windows) == Flips(t.v.messages) <= 2
    ensures !t.sdl.Released? ==> Flips(t.v.messages) <= 1
  {
    InitInv(maxImages, numWindows);
    RunInv(Init(maxImages, numWindows), acts, t);
    PendingIsFlips(t.v.windows, t.v.messages);
    WindowsBelowBounds(t.v.messages, |t.v.windows|);
  }

  /** How many of the tickets served got an image. */
  function Images(served: seq<Served>): nat {
    if served == [] then 0 else Images(served[..|served| - 1]) + if served[|served| - 1].faked then 0 else 1
  }

  lemma ImagesNext(served: seq<Served>, x: Served)
    ensures Images(served + [x]) == Images(served) + if x.faked then 0 else 1
  {
    assert (served + [x])[..|served|] == served;
  }

  lemma NextRemainder(n: nat, m: nat)
    requires m >= 1
    ensures (n % m + 1) % m == (n + 1) % m
  {
    var q, r := n / m, n % m;
    assert n == q * m + r;
    if r + 1 < m {
      ModUnique(r + 1, m, 0, r + 1);
      ModUnique(n + 1, m, q, r + 1);
    } else {
      ModUnique(r + 1, m, 1, 0);
      assert n + 1 == (q + 1) * m;
      ModUnique(n + 1, m, q + 1, 0);
    }
  }

  lemma StepSlots(s: Sys, a: Action)
    requires s.h.maxImages >= 1 && Enabled(s, a) && s.h.nextIndex == Images(s.served) % s.h.maxImages
    ensures Apply(s, a).h.nextIndex == Images(Apply(s, a).served) % s.h.maxImages && Apply(s, a).h.maxImages == s.h.maxImages
  {
    if a.TakeImage? {
      ImagesNext(s.served, Served(s.pcs[a.tid].ticket, false));
      NextRemainder(Images(s.served), s.h.maxImages);
    } else if a.Fake? {
      ImagesNext(s.served, Served(s.pcs[a.tid].ticket, true));
    }
  }

  lemma {:induction false} RunSlots(s: Sys, acts: seq<Action>, t: Sys)
    requires s.h.maxImages >= 1 && Runs(s, acts, t) && s.h.nextIndex == Images(s.served) % s.h.maxImages
    ensures t.h.nextIndex == Images(t.served) % s.h.maxImages && t.h.maxImages == s.h.maxImages
    decreases |acts|
  {
    if acts != [] {
      StepSlots(s, acts[0]);
      RunSlots(Apply(s, acts[0]), acts[1..], t);
    }
  }

  /** The resource slots are used in turn: after `k` images, faked tickets aside, the next one gets slot `k` modulo their number. */
  lemma SlotsAreUsedInTurn(maxImages: nat, numWindows: nat, acts: seq<Action>, s: Sys, tid: int)
    requires maxImages >= 1 && Runs(Init(maxImages, numWindows), acts, s) && Enabled(s, TakeImage(tid))
    ensures Apply(s, TakeImage(tid)).pcs[tid] ==
            Got(s.pcs[tid].window, Image(s.pcs[tid].ticket, Images(s.served) % maxImages))
  {
    RunSlots(Init(maxImages, numWindows), acts, s);
    assert s.h.maxImages == maxImages;
  }

  /** One flip handed back but not completed, nothing else under way. */
  function OneReleased(): Sys {
    var m := Flip(0, Image(1, 0));
    Sys(Tickets(1, 1, 2, 0, 0), Video([FlipStatus(1, 0, 0)], [m]), map[1 := Idle], Released(m), map[], None,
        [Served(1, false)], [1])
  }

  /** The first flip has been submitted. */
  function OneQueued(): Sys {
    OneReleased().(sdl := Ready, h := Tickets(1, 1, 1, 1, 0))
  }

  /** A thread has taken its ticket and may take the only image. */
  predicate MayServe(s: Sys, tid: int) {
    s.h.maxImages == 1 && s.h.countImages == 0 && tid in s.pcs && s.pcs[tid].Waiting? && s.pcs[tid].ticket == s.h.presentCount
  }

  /** The second half of a submission to window 0. */
  lemma ServeAndFinish(s: Sys, tid: int, rest: seq<Action>, u: Sys) returns (acts: seq<Action>)
    requires MayServe(s, tid) && s.pcs[tid].window == 0 && |s.v.windows| == |s.submitted| == 1
    requires Runs(Apply(Apply(s, TakeImage(tid)), Finish(tid, 0)), rest, u)
    ensures Runs(s, acts, u)
  {
    var s1 := Apply(s, TakeImage(tid));
    acts := Prepend(s1, Finish(tid, 0), Apply(s1, Finish(tid, 0)), rest, u);
    acts := Prepend(s, TakeImage(tid), s1, acts, u);
  }

  /** The first half. */
  lemma BeginAndTicket(s: Sys, tid: int, rest: seq<Action>, u: Sys) returns (acts: seq<Action>)
    requires s.h.maxImages == 1 && PcOf(s, tid).Idle? && |s.v.windows| == 1
    requires Runs(Apply(Apply(s, Begin(tid, 0)), Ticket(tid)), rest, u)
    ensures Runs(s, acts, u)
  {
    var s1 := Apply(s, Begin(tid, 0));
    acts := Prepend(s1, Ticket(tid), Apply(s1, Ticket(tid)), rest, u);
    acts := Prepend(s, Begin(tid, 0), s1, acts, u);
  }

  lemma SecondSubmission() returns (acts: seq<Action>, t: Sys)
    ensures Runs(OneReleased(), acts, t) && t.v.windows == [FlipStatus(2, 0, 0)]
  {
    var s2 := Apply(Apply(OneReleased(), Begin(2, 0)), Ticket(2));
    t := Apply(Apply(s2, TakeImage(2)), Finish(2, 0));
    acts := ServeAndFinish(s2, 2, [], t);
    acts := BeginAndTicket(OneReleased(), 2, acts, t);
  }

  lemma FirstFlipReleased() returns (acts: seq<Action>, t: Sys)
    ensures Runs(OneQueued(), acts, t) && t.v.windows == [FlipStatus(2, 0, 0)]
  {
    var s5 := Apply(OneQueued(), Present);
    acts, t := SecondSubmission();
    acts := Prepend(s5, Release, OneReleased(), acts, t);
    acts := Prepend(OneQueued(), Present, s5, acts, t);
  }

  /** A thread waits with the first ticket. */
  function OneWaiting(): Sys {
    Sys(Tickets(1, 1, 1, 0, 0), Video([FlipStatus(0, 0, 0)], []), map[1 := Waiting(0, 1)], Ready, map[1 := 1], None, [], [0])
  }

  lemma FirstSteps()
    ensures Apply(Apply(Init(1, 1), Begin(1, 0)), Ticket(1)) == OneWaiting()
  {
    assert seq(1, _ => 0) == [0];
    assert Init(1, 1).v.windows == [FlipStatus(0, 0, 0)];
  }

  lemma NextSteps()
    ensures MayServe(OneWaiting(), 1)
    ensures Apply(Apply(OneWaiting(), TakeImage(1)), Finish(1, 0)) == OneQueued()
  {
    assert OneWaiting().waiters - {1} == map[];
  }

  /** The bound is reached: one flip still completing, the next one already queued. */
  lemma TwoFlipsCanBePending() returns (acts: seq<Action>, t: Sys)
    ensures Runs(Init(1, 1), acts, t) && t.v.windows == [FlipStatus(2, 0, 0)]
  {
    acts, t := FirstFlipReleased();
    NextSteps();
    acts := ServeAndFinish(OneWaiting(), 1, acts, t);
    FirstSteps();
    acts := BeginAndTicket(Init(1, 1), 1, acts, t);
  }

  lemma Prepend(s: Sys, a: Action, t: Sys, acts: seq<Action>, u: Sys) returns (longer: seq<Action>)
    requires s.h.maxImages >= 1 && Enabled(s, a) && t == Apply(s, a) && t.h.maxImages >= 1 && Runs(t, acts, u)
    ensures Runs(s, longer, u)
  {
    longer := [a] + acts;
    assert longer[1..] == acts;
  }

  /** Every finished submission has been presented or refused, or is still pending, exactly once. */
  lemma SubmissionsAreAccountedFor(maxImages: nat, numWindows: nat, acts: seq<Action>, t: Sys, w: nat)
    requires maxImages >= 1 && Runs(Init(maxImages, numWindows), acts, t) && w < |t.v.windows|
    ensures |t.submitted| == |t.v.windows|
    ensures t.submitted[w] == t.v.windows[w].count + FlipsFor(t.v.messages, w)
  {
    InitInv(maxImages, numWindows);
    RunInv(Init(maxImages, numWindows), acts, t);
  }

  /** At most one image is out, and tickets are served or faked in order with none skipped. */
  lemma TicketsAreServedInOrder(maxImages: nat, numWindows: nat, acts: seq<Action>, t: Sys)
    requires maxImages >= 1 && Runs(Init(maxImages, numWindows), acts, t)
    ensures t.h.countImages <= 1
    ensures forall i :: 0 <= i < |t.served| ==> t.served[i].ticket == i + 1
    ensures |t.served| == t.h.presentCount - 1 + t.h.countImages
    ensures forall u :: u in t.pcs && t.pcs[u].Got? ==> t.pcs[u].image.ticket == t.h.presentCount
    ensures t.sdl.Presenting? ==> t.sdl.message.Flip? && t.sdl.message.image.ticket == t.h.presentCount && forall u :: u in t.pcs ==> !t.pcs[u].Got?
  {
    InitInv(maxImages, numWindows);
    RunInv(Init(maxImages, numWindows), acts, t);
    if t.sdl.Presenting? {
      FlipOut(t);
      assert Unreleased(t)[0] == t.sdl.message;
    }
  }

  /**
    A submitter that waits is never stuck for good: either the oldest waiter may take its image
    now, or the submission that holds the image can finish, or the SDL thread can move on.
   */
  lemma WaitersAreNotStuck(maxImages: nat, numWindows: nat, acts: seq<Action>, t: Sys, tid: int)
    requires maxImages >= 1 && Runs(Init(maxImages, numWindows), acts, t) && PcOf(t, tid).Waiting?
    ensures t.h.countImages == 0 ==>
              && t.h.presentCount in t.waiters
              && Enabled(t, TakeImage(t.waiters[t.h.presentCount]))
              && t.h.presentCount <= PcOf(t, tid).ticket
    ensures t.h.countImages == 1 ==>
              || (t.holder.Some? && Enabled(t, Finish(t.holder.value, 0)))
              || Enabled(t, HandleSubsystem) || Enabled(t, Present) || Enabled(t, Release) || Enabled(t, FinishFlip)
  {
    InitInv(maxImages, numWindows);
    RunInv(Init(maxImages, numWindows), acts, t);
    assert t.h.maxImages >= 1;
    if t.h.countImages == 1 && t.holder.None? {
      assert t.v.messages != [];
    }
  }
}
