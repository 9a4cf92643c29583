# psOff core: verified models

psOff runs PlayStation 4 programs on another system. This project models the parts of its core
where threads meet or where addresses are computed, and proves what those parts are for:

- the FIFO counting semaphore (`Semaphore*.dfy`, `Words.dfy`),
- the flip pipeline, which crosses the image handler's lock and the video output's lock
  (`Flip*.dfy`, `VideoOut.dfy`),
- the layout of static thread-local storage, its copies in every thread, and the dynamic keys
  (`Tls*.dfy`),
- the event flag with its cancel and delete drains (`EventFlag*.dfy`),
- `once`, mutexes and read-write locks (`Pthread.dfy`, `OnceRuns.dfy`, `RwlockRuns.dfy`) and the
  one-time construction guards of the C++ runtime (`Guard.dfy`, `GuardRuns.dfy`),
- the event queue (`EventQueue*.dfy`),
- directory paging and the table of open files (`DirectorySpec.dfy`, `FileManager.dfy`),
- the scanner for RIFF/WAVE headers (`RiffSpec.dfy`, `Riff.dfy`).

## How it is laid out

Each component comes in up to three files. `XSpec.dfy` says on values what every section run
under a lock does. `X.dfy` has the source's objects: classes whose methods change fields, arrays
and links in place, each method proved to do what the value function says. `XRuns.dfy` is a
transition system with any number of threads, one step per critical section (or per unlocked read
or write, where the code does one). `Init` is a fresh object, `Enabled` and `Apply` are the steps,
`Runs(s, acts, t)` says that the steps `acts` lead from `s` to `t`. The invariants are proved step
by step, and the theorems at the end of each file hold for every list of steps from `Init`.
`SemaphoreReplay.dfy` carries any run of the semaphore out on the linked queue, method by method.

A condition variable is modelled by two facts: a sleeping thread may look at its predicate again at
any time, and a set (`woken`, `notified`) holds the sleepers that a notification has reached. "No
wake-up is lost" then says that a sleeper whose predicate holds is in that set, or that the
notification is still to be sent. Shared variables are read and written in some total order.

Words are modelled with their width: `ToU32`, `ToU64`, `ToI64`, `ToI32`, `Add32` and `Widen` are the
conversions, and unsigned subtraction wraps where the code's does. The event flag's 64-bit words,
on which the code only uses `|`, `&`, `~` and comparisons, are sets of bit numbers below 64.

`dafny verify dfyconfig.toml` checks everything.

## What came out

The code keeps what it is for, with the exceptions below, each of which has its exact condition or
a concrete input.

- Semaphore: a time-out leaves the queue intact if and only if the thread is not the last one in
  it and, when it is the first, its back link is null (`TimeOut`). After the only waiter has timed
  out, a poll for one unit is refused although one unit is there (`PollAfterLoneTimeOut`). A signal
  is safe for a head that was handed the semaphore if and only if the unsigned addition does not
  wrap (`SignalIsSafeIff`); after three signals that add up to 2^32 - 1 on a count of 5, a head
  that needs 6 finds 4 and leaves the count at 2^32 - 2 (`WrappedSignalStrandsHead`).
- Flip pipeline: up to two flips can be pending at once, not one, because the image is given back
  before the count goes down (`TwoFlipsCanBePending`). A third counted try that gets an image
  treats it as a failure (`ImageHandler.Acquire`). A flip event carries the argument that was
  submitted last, so with two flips pending the first one's event carries the second one's
  argument (`FirstFlipReportsSecond`).
- Thread-local storage: the two layout passes agree if and only if every alignment divides the
  size of the block (`PassesAgreeIff`). A power of two is a safe alignment if and only if it
  divides 32 (`AlignmentIsSafeIff`); from 64 on there are two modules of which the second is
  placed at -32 (`LargeAlignmentsFail`). A module loaded when no key is free gets the index
  2^32 - 1, which is that of no slot (`RegisterDynamic`). A module under key 255 never gets its
  copy, because that slot holds a guard value (`InitThenCopy`), and one under key 254 gets it only
  if the slot, which is not reset, was empty.
- `once`: a thread that already holds the control block's mutex runs the routine unguarded and
  gives one of its own holds away (`PthreadOnce.Once`, `PthreadOnce.OnceWhileHolding`); the
  theorems about runs exclude such re-entry.
- One-time construction: `inUse` is exact throughout a run if and only if nobody aborts the guard
  in it (`InUseIsExactIff`): an abort clears it after unlocking, possibly for the next thread that
  is already initialising (`AbortCanHideInUse`). The flag only decides on a log line.
- Directory paging: a call returns nothing before the end of the listing if and only if the buffer
  is no larger than 264 bytes plus the next name (`EmptyPageIff`), and it writes one record less
  than would fit when the size is a multiple of 264. It stays inside the buffer whatever is left of
  the listing if and only if the size is not negative (`StaysInsideIff`).
- RIFF: the scan never skips a padding byte (`TurnPasses`), and a padded chunk in front of the data
  chunk can hide it (`OddChunkHidesData`). The scan is at a chunk's header whenever a turn begins,
  up to the first data chunk, if and only if every chunk before that one has an even size and every
  fact chunk among them at least four bytes, except for one at the end of the file
  (`ScanStaysInStepIff`). For a well-formed file in memory the call comes to a defined result if and
  only if the file is smaller than 2 GiB (`ParseIsDefinedIff`).

## Model

| member | source | states |
|---|---|---|
| SemaphoreSpec.SignalKeeps | core/kernel/semaphore_fifo.cpp:129-149 | after any signal a head whose need fits is marked signaled and nobody behind it is |
| SemaphoreSpec.EnqueueKeeps | core/kernel/semaphore_fifo.cpp:165-181 | parking a request that could not be granted keeps "a head that fits is signaled" |
| SemaphoreSpec.WakeKeeps | core/kernel/semaphore_fifo.cpp:241-275 | while a signaled head fits, its wake-up takes exactly its need (the subtraction does not wrap) and the next head is signaled exactly if it fits |
| SemaphoreSpec.WakeKeepsWellFormed | core/kernel/semaphore_fifo.cpp:241-275 | even after a wrapped signal a wake-up leaves no fitting head unsignaled |
| SemaphoreSpec.TimeoutKeepsWellFormed | core/kernel/semaphore_fifo.cpp:191-232 | a time-out that the queue survives re-establishes "a head that fits is signaled" |
| SemaphoreSpec.CascadeGrantsLongestPrefix | core/kernel/semaphore_fifo.cpp:245-275 | k hand-offs can follow one another if and only if the first k needs fit together, and they leave the count less by their sum and the rest of the queue |
| SemaphoreSpec.CascadeComesToRest | core/kernel/semaphore_fifo.cpp:266-275 | the cascade stops exactly where the next need does not fit, and no longer cascade exists |
| Semaphore.FifoSemaphore.constructor | core/kernel/semaphore_fifo.cpp:61-61 | an empty queue and the initial count as an unsigned word |
| Semaphore.FifoSemaphore.Signal | core/kernel/semaphore_fifo.cpp:129-149 | on the linked queue: the whole new state is the value's signal, links and waiters unchanged |
| Semaphore.FifoSemaphore.PollInternal | core/kernel/semaphore_fifo.cpp:299-306 | a unit is granted exactly if the back pointer is null and the need fits, whatever state the links are in |
| Semaphore.FifoSemaphore.Poll | core/kernel/semaphore_fifo.cpp:308-311 | a poll grants or refuses as the value does and never queues |
| Semaphore.FifoSemaphore.WaitEnter | core/kernel/semaphore_fifo.cpp:151-187 | a wait either takes its units at once, with nobody queued, or its node, with its own need, comes last behind the whole old queue |
| Semaphore.FifoSemaphore.TryWaitEnter | core/kernel/semaphore_fifo.cpp:289-297 | busy exactly if somebody is queued, otherwise as a wait |
| Semaphore.FifoSemaphore.Park | core/kernel/semaphore_fifo.cpp:158-181 | a thread that cannot be served is last in the linked queue afterwards, waiting, with its own need |
| Semaphore.FifoSemaphore.NodeOf | core/kernel/semaphore_fifo.cpp:158-161 | each thread has one node, made on its first wait, listed under the thread and distinct from all others |
| Semaphore.FifoSemaphore.ParkedIff | core/kernel/semaphore_fifo.cpp:158-181 | a thread is in the queue if and only if its node is not idle |
| Semaphore.FifoSemaphore.QueueIsDistinct | core/kernel/semaphore_fifo.cpp:158-181 | no thread is in the linked queue twice |
| Semaphore.FifoSemaphore.EnqueueNode | core/kernel/semaphore_fifo.cpp:165-181 | appending by links appends to the sequence that following `child` from the start visits |
| Semaphore.FifoSemaphore.Resume | core/kernel/semaphore_fifo.cpp:241-275 | the signaled head leaves the linked queue, which still visits each other waiter once and ends at the back |
| Semaphore.FifoSemaphore.Recheck | core/kernel/semaphore_fifo.cpp:186-275 | a parked thread that looks at its node is granted its units exactly if it is the head and was handed the semaphore; otherwise nothing changes |
| Semaphore.FifoSemaphore.MayTimeOut | core/kernel/semaphore_fifo.cpp:191-192 | every parked thread that was not handed the semaphore can take the time-out branch |
| Semaphore.FifoSemaphore.TimeOut | core/kernel/semaphore_fifo.cpp:191-232 | the linked queue loses exactly the thread's node; the links stay right if and only if the thread is not the last and, as the head, has a null back link |
| Semaphore.FifoSemaphore.Unlink | core/kernel/semaphore_fifo.cpp:196-223 | which links and states the removal changes, and that it changes no others |
| Semaphore.PollAfterLoneTimeOut | core/kernel/semaphore_fifo.cpp:196-223 | a concrete failure: after the only waiter timed out, a poll is refused although its unit is there |
| SemaphoreRuns.UnitsAreConserved | core/kernel/semaphore_fifo.cpp:129-166 | over every run, count plus granted needs equals the initial count plus all signals, modulo 2^32, and exactly while nothing wrapped |
| SemaphoreRuns.GrantsFollowArrival | core/kernel/semaphore_fifo.cpp:284-311 | over every run, grants happen in order of arrival and none overtakes a request still parked; each grant and each queued waiter is of the thread that made the request of that number, for what it asked for |
| SemaphoreRuns.RequestsAreServedOrParked | core/kernel/semaphore_fifo.cpp:151-311 | from any state, a request with nobody queued and enough units is granted at once; otherwise a poll, or a try-wait with somebody queued, changes nothing, and any other request goes behind everybody |
| SemaphoreRuns.TimeoutsTakeOutTheirOwn | core/kernel/semaphore_fifo.cpp:191-232 | a time-out takes out its own thread and leaves the others in order and the count as it was |
| SemaphoreRuns.NoWakeUpIsLost | core/kernel/semaphore_fifo.cpp:137-147 | in every reachable state a head that fits is signaled, can go on, and its notification has come or is owed; nobody else is signaled; without wrapping, signaled if and only if it fits |
| SemaphoreRuns.LongestPrefixIsGranted | core/kernel/semaphore_fifo.cpp:245-275 | after any run re-checks alone grant exactly the longest prefix that fits, each to the thread that made the request and for what it asked for |
| SemaphoreRuns.SignalIsSafeIff | core/kernel/semaphore_fifo.cpp:134-134 | in every well-formed semaphore with a given count, a head that was handed the semaphore still fits after a signal, if and only if the unsigned addition does not wrap |
| SemaphoreRuns.WrappedSignalStrandsHead | core/kernel/semaphore_fifo.cpp:134-134 | a run from a count of 5 whose last signal wraps under a signaled head, which then takes more units than there are |
| SemaphoreReplay.Step | core/kernel/semaphore_fifo.cpp:129-311 | whatever step the transition system allows, the method for it can be called on the linked queue and does to it what the step does |
| SemaphoreReplay.Replay | core/kernel/semaphore_fifo.cpp:129-311 | every run can be carried out on a fresh semaphore, whose links spell out the state the run ends in |
| Words.ToU32IsRemainder | core/kernel/semaphore_fifo.cpp:134-134 | converting to `uint32_t` takes the remainder modulo 2^32, for negative numbers too |
| FlipSpec.PendingIsFlips | core/videoout/videoout.cpp:581-600 | when each window's pending count is exact, the counts add up to the flips in the message queue |
| FlipSpec.KeepsIff | core/videoout/imageHandler.cpp:147-205 | an image is kept if and only if a success of the swapchain comes after at most one failure that gets no further try |
| VideoOut.ImageHandler.Acquire | core/videoout/imageHandler.cpp:147-205 | for any results of the swapchain: the image is kept exactly if one of the first two counted tries succeeds, refused after three counted tries otherwise, and how the counters change in each case |
| VideoOut.VideoOutput.SubmitFlip | core/videoout/videoout.cpp:579-606 | the section after the image handler answered: a flip is stamped, counted and queued, and raises nothing, or it is counted and completed at once, and the listeners' own events have fired |
| VideoOut.VideoOutput.DoFlip | core/videoout/videoout.cpp:608-627 | one flip moves from pending to done in its own window only; both time stamps are set; in each listening queue the vblank event has fired with the new count and the flip event with the last argument, as often as the queue is registered, and no other event has changed |
| VideoOut.VideoOutput.VblankEnd | core/videoout/videoout.cpp:648-663 | the vblank is counted and stamped, and its listeners get the event with the new count |
| VideoOut.VideoOutput.AddFlipEvent | core/videoout/videoout.cpp:500-511 | the queue gets the event and listens to the window from then on |
| VideoOut.Raise | core/videoout/videoout.cpp:623-625 | the loop triggers each queue exactly as often as it is in the list |
| VideoOut.TwiceTriggered | core/videoout/videoout.cpp:620-625 | vblank triggers followed by flip triggers reach the two events of those keys, each with its data and counted, and no other |
| VideoOut.VideoOutput.CompleteFlip | core/videoout/videoout.cpp:1005-1031 | the front message's window is completed, its listeners' events have fired, and the message is removed |
| VideoOut.FirstFlipReportsSecond | core/videoout/videoout.cpp:622-625 | with two flips pending, the event of the first one carries the argument of the second |
| FlipRuns.PendingFlipsAreExactAndFew | core/videoout/videoout.cpp:561-627 | in every reachable state each window's pending count is the number of its queued flips, and all windows together have at most two |
| FlipRuns.TwoFlipsCanBePending | core/videoout/videoout.cpp:1010-1020 | a run that reaches two pending flips with a single image |
| FlipRuns.SubmissionsAreAccountedFor | core/videoout/videoout.cpp:250-295 | every finished submission is either done or still queued, exactly once |
| FlipRuns.TicketsAreServedInOrder | core/videoout/imageHandler.cpp:138-186 | for any number of images at most one is out, it belongs to the ticket being presented, and tickets are served or faked in issue order with none skipped |
| FlipRuns.SlotsAreUsedInTurn | core/videoout/imageHandler.cpp:185-185 | over every run the k-th image given out, counted from 0 and without the faked ones, uses resource slot k modulo their number |
| FlipRuns.WaitersAreNotStuck | core/videoout/imageHandler.cpp:143-143 | while somebody waits, the oldest waiter may go on, or the image's holder or the SDL thread can |
| TlsSpec.AlignDownFloors | utility/utility.h:86-89 | masking with a power of two rounds a 64-bit word down to a multiple |
| TlsSpec.AlignUpCeils | utility/utility.h:81-84 | adding and masking rounds up to a multiple while nothing wraps |
| TlsSpec.PlaceFloors | core/runtime/runtimeLinker.cpp:828-828 | a step of a pass rounds down in the integers although it goes through unsigned words below zero |
| TlsSpec.OffsetFloors | core/runtime/runtimeLinker.cpp:833-842 | every assigned offset from the one before: aligned, and its module ends where the previous one begins or lower |
| TlsSpec.BlockSizeIs | core/runtime/runtimeLinker.cpp:824-831 | the block's size is the first pass's reach rounded up to 32 |
| TlsSpec.PassesAgreeIff | core/runtime/runtimeLinker.cpp:824-842 | the second pass is the first one shifted by the block size if and only if every alignment divides that size |
| TlsSpec.AgreementIsGood | core/runtime/runtimeLinker.cpp:834-853 | when the passes agree, offsets are non-negative, inside the block, aligned and without overlap |
| TlsSpec.SmallAlignmentsAreGood | core/runtime/runtimeLinker.cpp:820-854 | alignments that are 0 or powers of two dividing 32 always give such a layout |
| TlsSpec.LargeAlignmentsFail | core/runtime/runtimeLinker.cpp:837-853 | every power of two from 64 on has two modules of which the second is placed at -32 |
| TlsSpec.AlignmentIsSafeIff | core/runtime/runtimeLinker.cpp:824-853 | a power of two is safe in every list of modules using it if and only if it divides 32 |
| Tls.RuntimeLinker.StaticSize | core/runtime/runtimeLinker.cpp:824-831 | the first loop computes the layout's block size |
| Tls.RuntimeLinker.AssignOffsets | core/runtime/runtimeLinker.cpp:834-850 | the second loop gives every program its offset and index and marks exactly those keys |
| Tls.RuntimeLinker.InitTlsStaticBlock | core/runtime/runtimeLinker.cpp:820-854 | both loops together establish the layout in the objects |
| Tls.RuntimeLinker.GoodIsSeparate | core/runtime/runtimeLinker.cpp:834-853 | a good layout keeps the programs' images apart and inside the block |
| Tls.RuntimeLinker.SetupTlsStaticBlock | core/runtime/runtimeLinker.cpp:856-860 | afterwards the block holds every program's image at its offset, none overwritten by a later one |
| Tls.SmallIsGood | core/runtime/runtimeLinker.cpp:820-854 | programs whose alignments divide 32 have a good layout, before and whatever the loops assign |
| Tls.RuntimeLinker.CopyImage | core/runtime/runtimeLinker.cpp:858-858 | copying one program leaves the images copied before it in place |
| Tls.RuntimeLinker.Execute | core/runtime/runtimeLinker.cpp:886-911 | registering and setting up programs whose alignments divide 32 leaves the block ready and the static keys marked |
| Tls.ThreadObject.ResetSlots | core/kernel/pthread.cpp:98-100 | every slot is empty but the last, which holds the guard, and the one before it, which keeps its value |
| Tls.RuntimeLinker.InitTLS | core/runtime/runtimeLinker.cpp:429-447 | every static slot of the thread leads to a copy of its program's image inside the thread's own object, the thread is registered, and nothing else of it changes |
| Tls.RuntimeLinker.InitThread | core/kernel/pthread.cpp:96-102 | the static slots are ready, the dynamic ones empty but for the last two |
| Tls.RuntimeLinker.CopyBlock | core/runtime/runtimeLinker.cpp:432-432 | the block is copied behind the first eight bytes |
| Tls.RuntimeLinker.FillSlots | core/runtime/runtimeLinker.cpp:437-446 | slot i + 1 points to program i's offset in the thread's object |
| Tls.RuntimeLinker.GetTlsAddr | core/runtime/runtimeLinker.cpp:631-655 | in a thread set up by initTLS, byte k of static module i is byte k of its image; a dynamic module gets this thread's own copy on first use and keeps it |
| Tls.RuntimeLinker.InitThenRead | core/runtime/runtimeLinker.cpp:429-640 | a thread set up by initTLS reads, through getTLSAddr, exactly the image of every static program |
| Tls.RuntimeLinker.InitThenCopy | core/kernel/pthread.cpp:96-102 | a thread just set up gives a dynamic module its own copy of the image on first use, if and only if its key is not 255 and, for key 254, the slot was empty |
| Tls.RuntimeLinker.RegisterDynamic | core/runtime/runtimeLinker.cpp:578-584 | a program loaded later is found under a new key above the static indexes, if and only if one was free, and the linker is as ready for the next one |
| Tls.NextFree | core/runtime/runtimeLinker.cpp:686-694 | with the keys up to some number taken the next key is that number plus one, or none |
| Tls.RuntimeLinker.LoadAll | core/runtime/runtimeLinker.cpp:578-584 | programs loaded in turn get the keys above the static ones in turn as long as there are any, and are found under them |
| Tls.LaunchThenRead | core/runtime/runtimeLinker.cpp:429-911 | from the creation of a linker with any programs whose alignments divide 32 to a read in a new thread: byte k of program i is byte k of its image |
| Tls.LaunchThenLoad | core/runtime/runtimeLinker.cpp:578-655 | after such a start, a new thread has its own copy of the i-th program loaded later if and only if that one did not get the last key |
| Tls.RuntimeLinker.CreateTlsKey | core/runtime/runtimeLinker.cpp:681-696 | the lowest unused key from the number of static programs on, with the given destructor, or none |
| Tls.RuntimeLinker.DeleteTlsKey | core/runtime/runtimeLinker.cpp:698-713 | the key becomes free, loses its destructor and is cleared in every registered thread; no other key and no other slot changes |
| Tls.RuntimeLinker.ClearSlots | core/runtime/runtimeLinker.cpp:704-707 | the loop reaches every registered thread, in whatever order |
| Tls.FirstFreeIs | core/runtime/runtimeLinker.cpp:686-694 | the search finds the lowest unused key, and finds none only if all are used |
| Tls.DynamicKeysStayAboveStatic | core/runtime/runtimeLinker.cpp:681-713 | over every run of creations and deletions, live keys are the marked ones above the static indexes, a new key is none of them, and creation fails only when all are taken |
| EventFlagSpec.MatchesGrows | core/kernel/eventflag.cpp:114-117 | clearing bits never makes a sleeping thread's predicate true |
| EventFlagSpec.MatchesIff | core/kernel/eventflag.cpp:114-117 | the predicate holds if and only if all of the bits, or one of them, are set, as the mode says |
| EventFlagSpec.ConsumeTakes | core/kernel/eventflag.cpp:154-158 | a wait for all of its bits that clears finds each of them set and leaves none; one for any of them takes one at least |
| EventFlag.KernelEventFlag.SetSection | core/kernel/eventflag.cpp:66-72 | exactly if no drain is going on, a bit is set afterwards if it was or is one of those given; otherwise the caller sleeps |
| EventFlag.KernelEventFlag.ClearSection | core/kernel/eventflag.cpp:74-79 | exactly if no drain is going on, a bit stays set if it is one of those given |
| EventFlag.KernelEventFlag.CancelSection | core/kernel/eventflag.cpp:81-92 | a drain starts with the given bits and reports the threads waiting |
| EventFlag.KernelEventFlag.CancelDrained | core/kernel/eventflag.cpp:93-94 | the flag reopens exactly if nobody waits |
| EventFlag.KernelEventFlag.DeleteSection | core/kernel/eventflag.cpp:55-62 | the deleting drain starts |
| EventFlag.KernelEventFlag.WaitSection | core/kernel/eventflag.cpp:97-161 | refused, answered at once or parked, with the whole new state and the result in each case |
| EventFlag.KernelEventFlag.WakeSection | core/kernel/eventflag.cpp:114-160 | a woken waiter leaves exactly if its predicate holds, with code and reported bits as promised; a success that clears drops all bits or those asked for, and nothing else drops one |
| EventFlag.KernelEventFlag.TimeoutSection | core/kernel/eventflag.cpp:121-128 | a waiter that gives up reports the bits and leaves them alone |
| EventFlagRuns.BitsAreConsumedAtMostOnce | core/kernel/eventflag.cpp:114-160 | over every run and for every bit: waits of either mode that saw the bit and cleared it, plus one if it is still set, never exceed the sets and cancels that raised it, plus one if it was set at first |
| EventFlagRuns.ClearingWaitsConsume | core/kernel/eventflag.cpp:114-160 | over every run, a successful wait that clears consumes every bit it waited for if it waited for all, and one at least if for any |
| EventFlagRuns.NoWakeUpIsLost | core/kernel/eventflag.cpp:66-95 | in every reachable state a waiter, a blocked operation or a drainer that may go on has a notification on its way |
| EventFlagRuns.DrainsReachEveryWaiter | core/kernel/eventflag.cpp:81-151 | over every run, a finished cancel or destructor had every thread it counted return ECANCELED or EINTR, nothing else but EPERM was returned meanwhile, and the count reported is the number of those threads |
| EventFlagRuns.DrainIsUndisturbed | core/kernel/eventflag.cpp:81-151 | while a drain goes on no step changes the bits, no waiter can time out, nobody joins, every waiter leaves when it looks, and the drain ends only when nobody is left |
| EventFlagRuns.OutcomesAreTruthful | core/kernel/eventflag.cpp:114-160 | over every run, a success reports bits that match the request and a time-out bits that do not |
| EventFlagRuns.SetsReachWaiters | core/kernel/eventflag.cpp:66-72 | over every run, a set that takes effect leaves its bits set with those that were, notifies every sleeper, and a sleeper that looks next returns Ok with them if and only if they hold what it asked for |
| EventFlagRuns.BitsChangeOnlySo | core/kernel/eventflag.cpp:66-160 | over every run, what each step does to each bit: set, clear, cancel and both kinds of clearing wait exactly as they say, and nothing else changes one |
| EventFlagRuns.WaitsAreAnsweredIff | core/kernel/eventflag.cpp:97-160 | over every run, an arriving wait is refused exactly on a single-thread flag with somebody waiting, answered at once exactly if a drain goes on or its bits are there, with which code, and parked otherwise |
| OnceRuns.RoutineRunsExactlyOnce | core/kernel/pthread.cpp:1033-1046 | over every interleaving one mutex at most is made, all locks go to it, the routine runs once, and no call returns before it has finished |
| OnceRuns.RoutineRunsAlone | core/kernel/pthread.cpp:1036-1043 | at most one thread is between the lock and the unlock |
| OnceRuns.CallersAreNotStuck | core/kernel/pthread.cpp:506-532 | no null mutex is followed, and a caller that cannot go on waits for a mutex whose holder can |
| RwlockRuns.UnlockReleasesWhatIsHeld | core/kernel/pthread.cpp:735-746 | over every interleaving in which holders unlock, the unlock call performs the release that fits the hold, though it only goes by the unlocked flag |
| RwlockRuns.WritersAreAlone | core/kernel/pthread.cpp:647-661 | a writer excludes all other holds, readers are counted exactly, and a lock nobody holds is as it was at first |
| Pthread.PthreadMutexPrivate.Lock | core/kernel/pthread.cpp:523-523 | the recursive lock gains one hold of the caller |
| Pthread.PthreadMutexPrivate.Unlock | core/kernel/pthread.cpp:598-598 | one hold less, and free after the last |
| Pthread.PthreadOnce.CheckMutexInit | core/kernel/pthread.cpp:506-516 | a missing mutex is made, unlocked and not recursive; an existing one stays |
| Pthread.PthreadOnce.MutexLock | core/kernel/pthread.cpp:518-532 | a second lock of a mutex that is not recursive is refused and changes nothing; any other adds one hold |
| Pthread.PthreadOnce.MutexUnlock | core/kernel/pthread.cpp:586-602 | refused without a mutex or without a hold, otherwise one hold less |
| Pthread.PthreadOnce.LockThenUnlock | core/kernel/pthread.cpp:518-602 | the unlock undoes a lock that succeeded |
| Pthread.PthreadOnce.Once | core/kernel/pthread.cpp:1033-1046 | the routine runs if and only if nobody has run it, and what becomes of the caller's holds, re-entry included |
| Pthread.PthreadOnce.OnceWhileHolding | core/kernel/pthread.cpp:1033-1046 | a thread that holds the mutex and calls `once` has lost its hold afterwards: its own unlock is refused |
| Pthread.PthreadRwlockPrivate.Rdlock | core/kernel/pthread.cpp:647-661 | one shared hold more |
| Pthread.PthreadRwlockPrivate.Wrlock | core/kernel/pthread.cpp:748-758 | an exclusive hold, and the flag says so |
| Pthread.PthreadRwlockPrivate.Unlock | core/kernel/pthread.cpp:735-746 | gives up the exclusive hold if there is one, else one shared hold |
| Guard.GuardMutex.Acquire | modules/libSceLibcInternal/entry.cpp:314-329 | whoever holds the mutex at the first read: 0 is answered exactly for a guard completed by the time of the lock, and only 1 leaves the caller with one hold more and the guard in use |
| Guard.GuardMutex.Release | modules/libSceLibcInternal/entry.cpp:331-335 | the guard is completed and one hold given up |
| Guard.GuardMutex.Abort | modules/libSceLibcInternal/entry.cpp:337-341 | the guard is free again and one hold given up |
| Guard.GuardMutex.Construct | modules/libSceLibcInternal/entry.cpp:314-341 | after an initialiser ended, acquire answers 0; after one aborted, 1 unless another thread completes first; the caller's holds are balanced |
| GuardRuns.InitialisersBelongToOneThread | modules/libSceLibcInternal/entry.cpp:314-341 | over every interleaving all initialisers in progress are one thread's, and the mutex depth is their number but for a thread between lock and return |
| GuardRuns.GuardsCompleteOnce | modules/libSceLibcInternal/entry.cpp:314-335 | over every interleaving a guard completes at most once, its initialisers never overlap or follow its completion, and 0 is answered only for a completed guard |
| GuardRuns.InUseIsExactIff | modules/libSceLibcInternal/entry.cpp:314-341 | `inUse` says at every point of a run that the guard is being or has been initialised, if and only if nobody aborts it in that run |
| GuardRuns.AbortBreaks | modules/libSceLibcInternal/entry.cpp:337-341 | right after an abort has unlocked, the flag is up for a guard that nobody initialises |
| GuardRuns.AbortCanHideInUse | modules/libSceLibcInternal/entry.cpp:337-341 | a run in which an abort clears the flag of the next thread's initialiser |
| EventQueueSpec.FindIsFirst | core/kernel/eventqueue.cpp:240-241 | the search finds the first event with the key, or none if there is none |
| EventQueueSpec.CollectReports | core/kernel/eventqueue.cpp:101-120 | a collection reports exactly the first `num` triggered events in list order, and one even for a smaller `num` |
| EventQueueSpec.CollectLeaves | core/kernel/eventqueue.cpp:105-117 | exactly the first reported events change, and those only if they clear: they are not triggered any more and their counter and data are 0 |
| EventQueueSpec.ReportedIs | core/kernel/eventqueue.cpp:105-132 | a reported event that clears is not triggered any more, with counter 0 and the field of its hook 0; one that does not clear is as it was |
| EventQueueSpec.AddIs | core/kernel/eventqueue.cpp:240-250 | the event is in the list afterwards, in place of the one with its key or last, and no other changes |
| EventQueueSpec.DeleteIs | core/kernel/eventqueue.cpp:284-292 | the event with the key is gone and the others are there in order |
| EventQueueSpec.AllPendingAreReported | core/kernel/eventqueue.cpp:101-120 | with room for all events every triggered one is reported |
| EventQueueSpec.AddKeepsKeys | core/kernel/eventqueue.cpp:234-255 | adding keeps keys unique |
| EventQueueSpec.DeleteKeepsKeys | core/kernel/eventqueue.cpp:279-295 | deleting keeps keys unique and removes the key altogether |
| EventQueueSpec.CollectKeepsKeys | core/kernel/eventqueue.cpp:101-120 | collecting keeps keys unique |
| EventQueueSpec.TriggerTimesIs | core/kernel/eventqueue.cpp:257-277 | n triggers of one key go to one event, which counts them modulo 2^32 and holds the data if it takes them; no other event changes |
| EventQueue.KernelEqueue.FindEvent | core/kernel/eventqueue.cpp:240-241 | the loop finds what the specified search finds |
| EventQueue.KernelEqueue.AddEvent | core/kernel/eventqueue.cpp:234-255 | the event replaces one of the same key or goes last; sleepers are notified if it is triggered |
| EventQueue.KernelEqueue.TriggerEvent | core/kernel/eventqueue.cpp:257-277 | the event of the key is triggered with its data and its counter goes up, or ENOENT |
| EventQueue.KernelEqueue.DeleteEvent | core/kernel/eventqueue.cpp:279-295 | the event of the key is removed, or ENOENT |
| EventQueue.KernelEqueue.HasTriggered | core/kernel/eventqueue.cpp:82-89 | tells whether some event is triggered |
| EventQueue.KernelEqueue.GetTriggeredEvents | core/kernel/eventqueue.cpp:101-120 | the buffer gets the first triggered events, `num` at most but one at least, its rest is left alone, the reported events that clear are reset, and no other event changes |
| EventQueue.KernelEqueue.Report | core/kernel/eventqueue.cpp:107-111 | one report, and the reset of an event that asks for it |
| EventQueueRuns.KeysStayUnique | core/kernel/eventqueue.cpp:234-295 | over every run no two events share a key |
| EventQueueRuns.TriggersAreConserved | core/kernel/eventqueue.cpp:101-132 | over every run, the triggers of a clearing event since it was added and its first counter equal what was reported plus what it holds, modulo 2^32, and exactly while that fits |
| EventQueueRuns.TriggersAreReported | core/kernel/eventqueue.cpp:101-120 | over every run, a trigger not yet reported keeps the event triggered and the next collection with room reports it |
| EventQueueRuns.ReportsAreNotRepeated | core/kernel/eventqueue.cpp:101-132 | over every run, an event that clears and has had no trigger since its last report, or since it was added untriggered, is not triggered, and no collection reports its key |
| EventQueueRuns.NoWakeUpIsLost | core/kernel/eventqueue.cpp:91-95 | over every run, while something is triggered a sleeper's notification has come or is owed |
| DirectorySpec.DecodeWritten | core/fileManager/fileManager.cpp:244-250 | reading a record back gives its number, the size 264, its kind and its name, whole up to 255 bytes and cut there, and terminated |
| DirectorySpec.WrittenIs | core/fileManager/fileManager.cpp:244-250 | which byte of a record holds what |
| DirectorySpec.RecordsAre | core/fileManager/fileManager.cpp:238-259 | the records of a stretch of the listing tell of its entries one by one, numbered on |
| DirectorySpec.EmptyPageIff | core/fileManager/fileManager.cpp:238-242 | a call before the end returns nothing if and only if the buffer is no larger than 264 bytes plus the next name, counted up to 255 |
| DirectorySpec.BigPage | core/fileManager/fileManager.cpp:238-242 | from 520 bytes on, how many records a call returns, and that it returns one at least before the end |
| DirectorySpec.NegativeTakesAll | core/fileManager/fileManager.cpp:238-242 | a call with a negative size returns all that is left |
| DirectorySpec.StaysInsideIff | core/fileManager/fileManager.cpp:238-242 | a call stays inside the buffer, whatever is left of the listing, if and only if its size is not negative |
| DirectorySpec.WholeListing | core/fileManager/fileManager.cpp:210-265 | any sequence of calls with at least 520 bytes returns the listing in order, each entry once, numbered from 0, and nothing only after all of it |
| FileManager.DirData.GetDents | core/fileManager/fileManager.cpp:210-265 | a call for any size writes one page and no byte beyond it; a reader finds entry after entry with its number, kind and name, the name cut only above 255 bytes; for a negative size the page is all that is left |
| FileManager.DirData.FillPage | core/fileManager/fileManager.cpp:235-259 | the loop stops only at the end of the listing, without room for another record, or at a name that does not fit |
| FileManager.DirData.Turn | core/fileManager/fileManager.cpp:241-258 | one turn goes on by a record exactly if the next one fits, and is the last one exactly if it did not or the listing has ended |
| FileManager.DirData.PutEntry | core/fileManager/fileManager.cpp:244-256 | one turn appends the next entry to what a reader finds in the buffer |
| FileManager.WriteRecord | core/fileManager/fileManager.cpp:244-250 | the fields land in one record and nowhere else |
| FileManager.OpenFiles.Insert | core/fileManager/fileManager.cpp:52-69 | the lowest free handle is given out and no other handle changes |
| FileManager.OpenFiles.Remove | core/fileManager/fileManager.cpp:189-192 | the handle becomes free and no other changes |
| FileManager.OpenFiles.AccessFile | core/fileManager/fileManager.cpp:194-200 | a file exactly for a handle that stands for a file; none for any other number, negative ones included |
| RiffSpec.TurnPasses | modules/libSceNgs2/readFuncs.cpp:134-153 | a turn passes over a chunk's header and body, and so reaches the next chunk if and only if there is no padding |
| RiffSpec.TurnFinds | modules/libSceNgs2/readFuncs.cpp:142-144 | a turn stops at a data chunk with its size |
| RiffSpec.FollowLocates | modules/libSceNgs2/readFuncs.cpp:127-155 | following turns that go over plain chunks one by one comes to the first data chunk where the chunks' sizes put it |
| RiffSpec.TurnInStepIff | modules/libSceNgs2/readFuncs.cpp:134-153 | a turn over a padded chunk ends at the next header, in the file and in the code's count, if and only if the size is even and a fact chunk has its four bytes or ends the file |
| RiffSpec.ScanStaysInStepIff | modules/libSceNgs2/readFuncs.cpp:127-155 | for every file of less than 2 GiB padded as RIFF asks, reader and offset are at a chunk's header at every loop head up to the first data chunk, if and only if all chunks before it are so |
| RiffSpec.ParseFindsFirstData | modules/libSceNgs2/readFuncs.cpp:98-183 | for every well-formed file of less than 2 GiB the scan returns the first data chunk's offset and size and the last fact count before it, 1 without one, and fails exactly if there is no data |
| RiffSpec.ParseIsDefinedIff | modules/libSceNgs2/readFuncs.cpp:51-51 | for a well-formed file of any size the call comes to a defined result if and only if the file is smaller than 2 GiB, because what is left is counted in an `int` |
| RiffSpec.FoundIsThere | modules/libSceNgs2/readFuncs.cpp:104-155 | on any bytes, a result is only returned if "RIFF", "WAVE" and "fmt " are in their places, with the size behind a "data" that is in the file and an offset below the size the file gives |
| RiffSpec.FactIsCounted | modules/libSceNgs2/readFuncs.cpp:139-141 | a file whose "fact" chunk says 5 gives the count 5 |
| RiffSpec.CountIsOneWithoutFact | modules/libSceNgs2/readFuncs.cpp:131-131 | for every well-formed file with data and no "fact" chunk in front of it the count is 1 |
| RiffSpec.OddFileIsPadded | modules/libSceNgs2/readFuncs.cpp:134-153 | a file with one odd, padded chunk in front of a data chunk |
| RiffSpec.OddChunkHidesData | modules/libSceNgs2/readFuncs.cpp:134-155 | the scan fails on that file |
| Riff.LinearBuffer.Read | modules/libSceNgs2/readFuncs.cpp:48-56 | what a read returns and where it leaves the reader, at the end of the data too, and that it runs out of the block exactly where the number of bytes left is negative as an `int` |
| Riff.ParseRiffWave | modules/libSceNgs2/readFuncs.cpp:98-183 | on any bytes the call comes to what the specified scan comes to |
| Riff.ReadFormat | modules/libSceNgs2/readFuncs.cpp:113-128 | the header's checks, the extra format bytes and the first offset |
| Riff.ScanChunks | modules/libSceNgs2/readFuncs.cpp:127-155 | the loop comes to what following the turns comes to |
| Riff.OneTurn | modules/libSceNgs2/readFuncs.cpp:135-150 | one turn of the loop, short reads and oversized chunks included |
| Riff.SkipRest | modules/libSceNgs2/readFuncs.cpp:147-150 | the rest of a chunk is read and dropped |

## Left out

- Semaphore `cancel`, the destructor, `m_numWaiters`, the logging index and `m_countWaits`: `cancel` notifies a node behind the ones it cancels and the destructor's bookkeeping is decremented after the lock may be gone, so neither does what it is for; `m_maxCount` is not checked by `signal`.
- SemaphoreRuns: time-outs that break the linked queue are excluded from the runs; `TimeOut` says exactly which they are.
- The time a wait still has left, clocks, sleeping and logging: a time limit only decides whether a time-out step may happen.
- FlipRuns: shutdown (`m_stop`), windows opened or closed while flips are pending, and the overlay handler. The 64-bit counters of tickets are unbounded numbers.
- What presenting does: Vulkan, SDL, fences, command buffers, recreation of the swapchain, window titles. The clock's answers are parameters. FlipRuns leaves out time stamps and events, which decide no step.
- Tls: loading modules, relocation, `destroyTLSKeys`, values of dynamic keys. The number under which `InitTLS` registers a thread is a parameter, because threads are set up before their own number is assigned; a thread whose entry is overwritten is not reached by `DeleteTlsKey`.
- Event flag: an operation that is still blocked when the destructor frees the object; the number of waiters is unbounded.
- EventFlagSpec.MatchesGrows: states monotonicity on sets of bits; the machine word behind them is not modelled, because only bitwise operators touch it.
- `mutexTrylock`, `mutexTimedlock`, `rwlockTimed*` and `rwlockTry*`: those that succeed do what `Lock`, `Rdlock` and `Wrlock` do, those that fail change nothing; the two first return Ok after undoing a second lock.
- OnceRuns: re-entry from the init routine, destruction of the control block, null arguments.
- RwlockRuns: the lazy creation of the lock, which is the one `OnceRuns` has, and unlock calls by non-holders.
- GuardRuns: recursive entry into one guard. Guards are read and written in one total order, although the code's flags are plain `bool`s.
- Event queue: `m_closed` and the destructor, the delete callback, null and size checks in `wait`; EV_CLEAR is the only flag that is looked at.
- getDents: errors of the directory iterator, handles that are not open directories; a directory does not change while it is read, and after a negative size its rest is one that an `int` can count.
- FileManager.OpenFiles.Remove: asks for a handle inside the table, because the code indexes the table unchecked.
- Riff.ParseRiffWave: only the reader over a block of memory, because the other two readers are system calls and guest callbacks. What the waveform structure receives besides offset, size and sample count is constants and copies of the format bytes.
- `virtualQuery`, `getMappedPath`, trophies, configuration, networking, dialogs, audio and pad handling, and the stubs of the `libSce` modules: nothing there is shared state or arithmetic with a deep promise.
