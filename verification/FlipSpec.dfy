/**
  The flip pipeline as values: the ticket counters of core/videoout/imageHandler.cpp and the
  flip status and message queue of core/videoout/videoout.cpp, with what each critical
  section does to them.
 */
module FlipSpec {
  import opened Words

  // ---- image handler ----

  /** A swapchain image: the ticket it was given for and the resource slot it uses. */
  datatype Image = Image(ticket: nat, slot: nat)

  datatype Tickets = Tickets(maxImages: nat, waitId: nat, presentCount: nat, countImages: nat, nextIndex: nat)

  function TakeTicket(h: Tickets): Tickets {
    h.(waitId := h.waitId + 1)
  }

  predicate MayTake(h: Tickets, ticket: nat) {
    ticket == h.presentCount && h.countImages < h.maxImages
  }

  function Acquire(h: Tickets): Tickets
    requires h.maxImages >= 1
  {
    h.(countImages := ToU32(h.countImages + 1), nextIndex := (h.nextIndex + 1) % h.maxImages)
  }

  function FakePresent(h: Tickets): Tickets {
    h.(presentCount := h.presentCount + 1)
  }

  function NotifyDone(h: Tickets): Tickets {
    h.(presentCount := h.presentCount + 1, countImages := ToU32(h.countImages - 1))
  }

  // ---- acquiring from the swapchain ----

  datatype VkResult = Success | NotReady | Suboptimal | OutOfDate | Timeout | Failure

  /** A result after which the code gives itself another try. */
  predicate Uncounted(result: VkResult) {
    result == Suboptimal || result == OutOfDate || result == Timeout
  }

  /** The results that use up a try. */
  function Counted(results: seq<VkResult>): seq<VkResult> {
    if results == [] then []
    else if Uncounted(results[0]) then Counted(results[1..])
    else [results[0]] + Counted(results[1..])
  }

  lemma {:induction false} CountedAppend(a: seq<VkResult>, b: seq<VkResult>)
    ensures Counted(a + b) == Counted(a) + Counted(b)
  {
    if a == [] {
      assert a + b == b;
    } else {
      CountedAppend(a[1..], b);
      assert (a + b)[0] == a[0] && (a + b)[1..] == a[1..] + b;
    }
  }

  /** The image is kept only when one of the first two counted tries succeeds. */
  predicate Keeps(results: seq<VkResult>) {
    var c := Counted(results);
    (|c| >= 1 && c[0] == Success) || (|c| >= 2 && c[1] == Success)
  }

  /** How many of the results are failures for which no further try is given. */
  function Failures(results: seq<VkResult>): nat {
    if results == [] then 0
    else Failures(results[..|results| - 1]) + if results[|results| - 1] in {NotReady, Failure} then 1 else 0
  }

  lemma {:induction false} FailuresAre(results: seq<VkResult>)
    requires Success !in results
    ensures |Counted(results)| == Failures(results) && Success !in Counted(results)
  {
    if results != [] {
      var n := |results| - 1;
      FailuresAre(results[..n]);
      CountedAppend(results[..n], [results[n]]);
      assert results == results[..n] + [results[n]];
      assert Counted([results[n]]) == if Uncounted(results[n]) then [] else [results[n]];
    }
  }

  lemma {:induction false} FirstSuccess(results: seq<VkResult>) returns (i: nat)
    requires Success in results
    ensures i < |results| && results[i] == Success && Success !in results[..i]
  {
    if results[0] == Success {
      i := 0;
    } else {
      i := FirstSuccess(results[1..]);
      i := i + 1;
      assert results[..i] == [results[0]] + results[1..][..i - 1];
    }
  }

  lemma NoneBefore(results: seq<VkResult>, i: nat)
    requires i <= |results| && Success !in results[..i]
    ensures forall k :: 0 <= k < i ==> results[k] != Success
  {
    forall k | 0 <= k < i ensures results[k] != Success {
      assert results[..i][k] == results[k];
    }
  }

  lemma CountedAround(results: seq<VkResult>, i: nat)
    requires i < |results| && results[i] == Success && Success !in results[..i]
    ensures var n := Failures(results[..i]);
      n < |Counted(results)| && Counted(results)[n] == Success && forall k :: 0 <= k < n ==> Counted(results)[k] != Success
  {
    FailuresAre(results[..i]);
    CountedAppend(results[..i], results[i..]);
    assert results == results[..i] + results[i..];
  }

  /** The image is kept if and only if a success comes after at most one failure. */
  lemma KeepsIff(results: seq<VkResult>)
    ensures Keeps(results) <==>
            exists i :: 0 <= i < |results| && results[i] == Success && Success !in results[..i] && Failures(results[..i]) <= 1
  {
    if Success in results {
      var i := FirstSuccess(results);
      CountedAround(results, i);
      assert Keeps(results) <==> Failures(results[..i]) <= 1;
      if j :| 0 <= j < |results| && results[j] == Success && Success !in results[..j] && Failures(results[..j]) <= 1 {
        NoneBefore(results, i);
        NoneBefore(results, j);
        assert i == j;
      }
    } else {
      FailuresAre(results);
    }
  }

  // ---- windows and messages ----

  datatype FlipStatus = FlipStatus(gcQueueNum: int, count: nat, flipArg: int)

  datatype Message = Subsystem | Flip(window: nat, image: Image)

  datatype Video = Video(windows: seq<FlipStatus>, messages: seq<Message>)

  function Queued(f: FlipStatus, flipArg: int): FlipStatus {
    f.(gcQueueNum := f.gcQueueNum + 1, flipArg := flipArg)
  }

  function Flipped(f: FlipStatus): FlipStatus {
    f.(gcQueueNum := f.gcQueueNum - 1, count := f.count + 1)
  }

  /** The section that ends submitFlip or eventDoFlip. */
  function Submit(v: Video, w: nat, flipArg: int, image: Option<Image>): Video
    requires w < |v.windows|
  {
    var q := Queued(v.windows[w], flipArg);
    match image
    case None => v.(windows := v.windows[w := Flipped(q)])
    case Some(i) => v.(windows := v.windows[w := q], messages := v.messages + [Flip(w, i)])
  }

  /** The section in which the SDL thread completes the flip at the front. */
  function Complete(v: Video): Video
    requires v.messages != [] && v.messages[0].Flip? && v.messages[0].window < |v.windows|
  {
    var w := v.messages[0].window;
    Video(v.windows[w := Flipped(v.windows[w])], v.messages[1..])
  }

  // ---- counting ----

  function FlipsFor(ms: seq<Message>, w: nat): nat {
    if ms == [] then 0
    else FlipsFor(ms[1..], w) + if ms[0].Flip? && ms[0].window == w then 1 else 0
  }

  function Flips(ms: seq<Message>): nat {
    if ms == [] then 0 else Flips(ms[1..]) + if ms[0].Flip? then 1 else 0
  }

  function Pending(fs: seq<FlipStatus>): int {
    if fs == [] then 0 else Pending(fs[..|fs| - 1]) + fs[|fs| - 1].gcQueueNum
  }

  lemma {:induction false} FlipsForAppend(ms: seq<Message>, m: Message, w: nat)
    ensures FlipsFor(ms + [m], w) == FlipsFor(ms, w) + if m.Flip? && m.window == w then 1 else 0
  {
    if ms == [] {
      assert ms + [m] == [m];
    } else {
      FlipsForAppend(ms[1..], m, w);
      assert (ms + [m])[1..] == ms[1..] + [m];
    }
  }

  lemma {:induction false} FlipsAppend(ms: seq<Message>, m: Message)
    ensures Flips(ms + [m]) == Flips(ms) + if m.Flip? then 1 else 0
  {
    if ms == [] {
      assert ms + [m] == [m];
    } else {
      FlipsAppend(ms[1..], m);
      assert (ms + [m])[1..] == ms[1..] + [m];
    }
  }

  function WindowsBelow(ms: seq<Message>, n: nat): nat {
    if ms == [] then 0
    else WindowsBelow(ms[1..], n) + if ms[0].Flip? && ms[0].window < n then 1 else 0
  }

  lemma {:induction false} WindowsBelowSplit(ms: seq<Message>, n: nat)
    ensures WindowsBelow(ms, n + 1) == WindowsBelow(ms, n) + FlipsFor(ms, n)
  {
    if ms != [] {
      WindowsBelowSplit(ms[1..], n);
    }
  }

  lemma {:induction false} WindowsBelowBounds(ms: seq<Message>, n: nat)
    ensures WindowsBelow(ms, 0) == 0
    ensures (forall i :: 0 <= i < |ms| && ms[i].Flip? ==> ms[i].window < n) ==> WindowsBelow(ms, n) == Flips(ms)
  {
    if ms != [] {
      WindowsBelowBounds(ms[1..], n);
    }
  }

  /** When every window's count is exact, the counts add up to the queued flips. */
  lemma {:induction false} PendingIsFlips(fs: seq<FlipStatus>, ms: seq<Message>)
    requires forall w :: 0 <= w < |fs| ==> fs[w].gcQueueNum == FlipsFor(ms, w)
    ensures Pending(fs) == WindowsBelow(ms, |fs|)
  {
    if fs == [] {
      WindowsBelowBounds(ms, 0);
    } else {
      var n := |fs| - 1;
      PendingIsFlips(fs[..n], ms);
      WindowsBelowSplit(ms, n);
    }
  }
}
