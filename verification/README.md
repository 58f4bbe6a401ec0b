# EPOS, modelled and proved in Dafny

EPOS is a small component operating system. This project models its kernel data structures and
the protocols above them, and proves what each operation keeps and what holds over every run.

- `RankOrder`, `Blocks`, `Lists`: doubly linked lists as pointers, with the ordered, relative
  (rank differences), scheduling and grouping lists of `include/utility/list.h`. All ranked lists
  of the project are specified with the functions of `RankOrder`.
- `HeapModel`, `HeapLaws`, `HeapCommon`: the first-fit heap over a grouping list. Blocks are
  carved off the top, a size word is kept below each, and returned blocks merge at once.
- `AlarmModel`, `AlarmLaws`, `AlarmClock`: the alarm queue. The model counts absolute waiting
  times; the code, a relative list of differences that fires at most one alarm per tick, refines it.
- `KernelModel`: threads, the ready list and the wait queues as a state, and every locked operation
  of `Thread` and `Semaphore` as one step on one CPU with the preemptive priority criterion; it
  keeps track of whose computation is on the CPU and whose is saved in each thread.
  `KernelLaws`, `KernelSteps`, `KernelAdmin` prove when each step keeps the invariant, `KernelEffects`
  what it achieves, `KernelRuns` and `KernelJoin` what holds over runs, `KernelOrder` and `KernelTurns`
  who runs, `Semaphores` the accounting and the order of waking, `Mutexes` when a mutex excludes,
  `ProducerConsumer` the demonstration application on top. `ThreadLinks` holds the ready list and the
  wait queues as pointer lists over one link a thread, and `Threads` all the operations on objects
  updated in place and those lists.
- `TcpModel`, `TcpSafety`, `TcpLife`, `TcpSocket`: the TCP endpoint, two of them on a network that
  loses, repeats and reorders, and what their applications are told from the first segment to the
  last. `Checksum`: the Internet checksum of RFC 1071 in IP headers and segments.
- `Crc`, `Cmac`, `FrameErrors`: the 16-bit CRC, the data frames of IEEE 802.15.4, and which errors in
  them are found.
- `SipModel`, `SipLaws`, `SipMessages`, `SipTransactions`: the four SIP transactions of section 17 of
  RFC 3261, their timers and their messages. `SipHeaders`, `SipSpelling`: the scanner of header lines
  and three parsers, with their printers and on what other programs write.
- `Words`, `Strings`, `Decimals`: 32-bit numbers, the word-at-a-time string routines and the number
  conversions.
- `SpinLock`: the recursive spin lock as interleaved accesses of any number of CPUs.

Where the source updates objects in place there is a class whose methods follow it statement by
statement; each is tied to a step function, and what the source promises is proved of that function
and, for the endpoints of the protocols, required and ensured by the methods themselves.

## What turned out to be conditional

- Suspending a waiting or finished thread breaks the kernel invariant: it stays in its wait queue,
  or is counted as alive. `KernelSteps.SuspendIff` gives the exact condition.
- `priority` on a waiting or finished thread breaks it, and on a beginning or suspended one it does
  unless the thread comes first with its new rank. On the running thread it does whenever anybody
  else is ready: once the thread has left the list the head of the others passes for it, and its
  computation is saved as that one's (`KernelAdmin.PriorityIff`, `KernelAdmin.WrongSaved`).
- Creating idle after the first thread is not enough at boot: it must rank behind it
  (`KernelRuns.BootIff`).
- `exit` releases its joiner without looking: a joiner that is ready or waiting ends up in two
  places (`KernelSteps.ExitIff`). Threads that join one at a time and leave joiners alone never get
  there (`KernelJoin.PoliteRunKeeps`).
- When the running thread exits, the one whose turn it is goes behind its equals before it has run
  (`KernelTurns.ExitPassesOver`); in all other operations no ready thread is overtaken
  (`KernelTurns.NoOvertaking`).
- A thread created as RUNNING must come first in the ready list (`KernelAdmin.CreateIff`).
- Semaphore accounting is lost when a waiting thread is deleted or the 32-bit counter wraps, and
  never holds for a negative initial value (`Semaphores.AccountingIff`, `Semaphores.UnitsLost`,
  `Semaphores.InitialIff`).
- A mutex is freed and handed on at once, so whoever locks it before the woken thread runs is inside
  together with it (`Mutexes.ExclusionIff`, `Mutexes.BothInside`).
- An alarm asked for zero times fires for ever, like one asked for `INFINITE`; one asked for a number
  below -1 fires that number plus 2^32 times (`AlarmModel.FiringLaw`).
- A heap request above 2^32-21 bytes wraps on the way and gets too little, or spoils a free block
  (`HeapLaws.RepresentableIff`, `HeapLaws.OversizedHarms`).
- A spin lock acquired more than 2^32 times in a row is freed too early, and one released by a CPU
  that does not hold it loses a level (`SpinLock.StepIff`, `SpinLock.ReleaseIff`).
- When both ends of a TCP connection call `connect`, the endpoint that receives the bare SYN loses
  its own initial sequence number (`TcpSafety.CrossedOpenForgets`).
- A reset does not end a TCP connection that the application has closed its end of
  (`TcpLife.ResetHeededIff`), a reset without bytes behind the peer's FIN ends one without an error
  (`TcpLife.EndsIff`), and bytes that acknowledge a FIN are acknowledged but not given to the
  application (`TcpLife.AfterClose`).
- A TCP segment that arrives 2^32 bytes late is taken for a new one (`TcpSafety.TakenIff`,
  `TcpSafety.OldByteTaken`); nothing else goes wrong with long streams (`TcpSafety.StreamSafety`).
- The CRC finds every burst of at most 16 bits in the bytes it covers, but not all that reach into the
  checksum, which is stored with its low byte first: twelve are missed
  (`FrameErrors.BurstDroppedIff`, `FrameErrors.BurstMissed`).
- A received frame of two to eight bytes that passes for a data frame overruns the receiver, as a
  payload too long does (`Cmac.Mac.Unpack`).
- A segment checksummed in pieces validates only if what starts at odd offsets happens to sum up to
  a multiple of 257 (`Checksum.SegmentValidatesIff`, `Checksum.OddPieceSpoils`).
- An INVITE client that has its final response reports a second one on a transport error
  (`SipLaws.OneFinalIff`).
- A transport error does not reach an INVITE client that proceeds (`SipMessages.MovesStep`).
- Two SIP transactions of one kind in one user agent share its timers: the second one to start a
  timer loses hold of the alarm of the first (`SipModel.StopStarted`).
- Parsing a printed address loses what is behind a bracket in its display and the parameters inside
  its brackets, and parsing a printed Via loses the port behind a host with colons
  (`SipHeaders.AddressRoundTripIff`, `SipHeaders.ViaRoundTripIff`). Without a port a colon in a
  parameter of a Via is taken for the end of the host (`SipHeaders.PortlessIff`). `contains` finds any single
  character in any text (`SipHeaders.ContainsText`).
- The SIP encoders print numbers into eleven characters, which are too few for a sign, ten digits and a
  zero: sequence numbers from 2^31 to 2^32-10^9 and ports up to -10^9 leave the buffer
  (`Decimals.FitsElevenIff`, `SipHeaders.CSeqRoundTripIff`, `SipHeaders.ViaRoundTripIff`). The buffers
  of the scanner bound the parts of a line (`SipHeaders.LineBack`, `SipHeaders.AddressRoundTripIff`).
- Reading a number leaves 32 bits on the way from 2147483600 up and down, since a character is added
  before '0' is subtracted; where sums wrap the result is right all the same (`Decimals.FitsIff`,
  `Decimals.RoundTrip`).
- `include/cmac.h:996-1002` calls the data frame header seven bytes with 16-bit addresses; the radio's
  address type (`include/radio.h:23`) has one byte, so the code's header has five. The model follows
  the code on machines that do not pad fields and lay out bit fields from the lowest bit.

## Model

| member | source | states |
|---|---|---|
| `RankOrder.Position` | include/utility/list.h:915-945 | the place a ranked insertion takes: behind every element of the same or a lower rank, in front of the first of a higher one |
| `RankOrder.InsertDeltaRefines` | include/utility/list.h:915-945 | inserting into a list of rank differences inserts the given rank into the running sums and moves no other sum: the relative list refines the absolute one |
| `RankOrder.RemoveDeltaRefines` | include/utility/list.h:953-965 | removing an element and handing its difference to the next removes one running sum and moves no other |
| `RankOrder.InsertedRanks` | include/utility/list.h:915-945 | the two rank writes of the relative insertion, in the order the code makes them, amount to that insertion |
| `RankOrder.RemovedRanks` | include/utility/list.h:953-965 | the same for the relative removal |
| `RankOrder.HeadlessRanks` | include/utility/list.h:947-951 | `remove()` without an argument hands nothing over: all remaining sums drop by the head's difference |
| `RankOrder.PromotedRanks` | include/utility/list.h:202 | promoting the head of a relative list brings every element one closer |
| `RankOrder.DeltasNonNegative` | include/utility/queue.h:26-36 | differences are never negative if and only if the running sums ascend from zero |
| `RankOrder.EnterKeepsOrder` | include/utility/list.h:915-945 | ranked insertion keeps a list sorted and without repetition |
| `RankOrder.EnterMultiset` | include/utility/list.h:915-945 | ranked insertion adds exactly the one element |
| `RankOrder.LeaveKeepsOrder` | include/utility/list.h:967-974 | removal by object keeps a list sorted |
| `RankOrder.LeaveMembers` | include/utility/list.h:967-974 | removal by object takes out exactly that object, once |
| `RankOrder.LeaveEnter` | include/utility/list.h:1027-1059 | taking out what was just inserted restores the list |
| `RankOrder.InsertMembers` | include/utility/list.h:805-829 | inserting between two neighbours adds the one element, wherever it goes |
| `RankOrder.RequeueMembers` | include/utility/list.h:1108-1112 | `reorder` changes nobody's membership and keeps the order |
| `RankOrder.HeadAfter` | include/utility/list.h:1061-1070 | who comes first after an insertion and a `reorder` of the chosen element: the newcomer exactly when it ranks before all others and not behind the chosen one |
| `Lists.Element.constructor` | include/utility/list.h:158-180 | a new link names its object and its rank or size |
| `Lists.List.constructor` | include/utility/list.h:656 | a new list is empty |
| `Lists.List.Empty` | include/utility/list.h:658 | the count is zero exactly for the list without elements |
| `Lists.List.InsertFirst` | include/utility/list.h:831-849 | the first element of an empty doubly linked list |
| `Lists.List.InsertHead` | include/utility/list.h:669-691 | the element goes to the front; links, head and count stay well formed |
| `Lists.List.InsertTail` | include/utility/list.h:693-715 | the element goes to the back |
| `Lists.List.InsertBetween` | include/utility/list.h:805-829 | the element goes between two neighbours |
| `Lists.List.RemoveLast` | include/utility/list.h:851-866 | removing the only element leaves the list empty |
| `Lists.List.RemoveHead` | include/utility/list.h:747-766 | removes and returns the first element |
| `Lists.List.RemoveTail` | include/utility/list.h:768-787 | removes and returns the last element |
| `Lists.List.Unlink` | include/utility/list.h:719-745 | removes one element wherever it is; the others keep their order |
| `Lists.List.Search` | include/utility/list.h:796-803 | finds the first link of an object, or none |
| `Lists.List.Insert` | include/utility/list.h:915-945 | the pointer-level ordered insertion, relative or not: the list afterwards is the specified one and its (absolute) ranks are the old ones with the new rank inserted |
| `Lists.List.Seek` | include/utility/list.h:925-931 | the loop of the insertion stops where `Position` says, having subtracted the ranks it passed in a relative list |
| `Lists.List.InsertBehindTail` | include/utility/list.h:932-935 | the case in which the new element goes last |
| `Lists.List.InsertBefore` | include/utility/list.h:935-943 | the cases in which it goes in front of another one |
| `Lists.List.PromoteHead` | include/utility/list.h:202 | `promote` on the head of a relative list lowers every rank by one |
| `Lists.List.Remove` | include/utility/list.h:947-951 | removal of the head, which in a relative list shifts all remaining ranks |
| `Lists.List.RemoveElement` | include/utility/list.h:953-965 | removal of a given element leaves all other ranks as they were |
| `Lists.List.RemoveObject` | include/utility/list.h:967-974 | removal by object, harmless when it is not there |
| `Lists.SchedulingList.Insert` | include/utility/list.h:1027-1037 | ranked insertion; into an empty list it also chooses |
| `Lists.SchedulingList.RemoveElement` | include/utility/list.h:1039-1051 | removal; when the chosen element goes, the head is chosen |
| `Lists.SchedulingList.RemoveObject` | include/utility/list.h:1053-1059 | removal by object |
| `Lists.SchedulingList.Reorder` | include/utility/list.h:1108-1112 | the chosen element goes behind its equals |
| `Lists.SchedulingList.Choose` | include/utility/list.h:1061-1070 | reorders and chooses the head |
| `Lists.SchedulingList.ChooseAnother` | include/utility/list.h:1072-1083 | chooses the head of the others |
| `Lists.SchedulingList.ChooseElement` | include/utility/list.h:1085-1097 | reorders and chooses the given element |
| `Lists.SchedulingList.ChooseObject` | include/utility/list.h:1099-1105 | chooses by object, or nothing when it is not in the list |
| `Blocks.FirstFit` | include/utility/list.h:1144-1148 | the first block of exactly the size, or with room for a link besides |
| `Blocks.StartingAt` | include/utility/list.h:796-803 | the first free block that starts at an address |
| `Blocks.EndingAt` | include/utility/list.h:1150-1154 | the first free block that ends at an address |
| `Blocks.CarveTotal` | include/utility/list.h:1177-1190 | carving takes exactly the requested bytes off the total |
| `Blocks.InsertMergingTotal` | include/utility/list.h:1156-1175 | merging adds exactly the returned bytes to the total |
| `Blocks.CarveOrder` | include/utility/list.h:1177-1190 | carving leaves the other free blocks in the order in which they are tried, and the rest of the carved one in its place |
| `Blocks.MergeOrder` | include/utility/list.h:1156-1175 | merging leaves the others in that order, and what a left neighbour has grown to in its place |
| `Blocks.MergeLast` | include/utility/list.h:1156-1175 | a returned block without a left neighbour goes behind all others, to be tried last |
| `Lists.GroupingList.SearchSize` | include/utility/list.h:1144-1148 | the loop finds the first fit |
| `Lists.GroupingList.SearchLeft` | include/utility/list.h:1150-1154 | the loop finds the block that ends at the address |
| `Lists.GroupingList.SearchDecrementing` | include/utility/list.h:1177-1190 | shrinks the first fit in place, drops it when nothing remains and keeps the grouped size |
| `Lists.GroupingList.InsertMerging` | include/utility/list.h:1156-1175 | the pointer-level merge with both neighbours gives the specified free list and grouped size |
| `HeapCommon.HeapObject.constructor` | include/utility/list.h:1133 | an empty heap satisfies the invariant |
| `HeapCommon.HeapObject.Alloc` | src/utility/heap.cc:22-43 | `alloc` over the grouping list takes the specified step and keeps the heap invariant |
| `HeapCommon.HeapObject.Free` | src/utility/heap.cc:51-54 | `free(ptr)` of a block handed out: the size word below it is found intact |
| `HeapCommon.HeapObject.FreeBlock` | src/utility/heap.cc:56-67 | `free(ptr, bytes)`: null and blocks too small for a link are dropped |
| `HeapCommon.HeapObject.Give` | src/utility/heap.cc:56-67 | giving the heap a region it does not have yet |
| `HeapLaws.AllocKeeps` | src/utility/heap.cc:22-43 | every allocation keeps the invariant: blocks cut the region without overlap, free blocks do not touch and hold a link, the grouped size is the sum of the free sizes, size words are right |
| `HeapLaws.AllocGives` | src/utility/heap.cc:22-43 | an allocation fails exactly for zero bytes or when no free block fits; otherwise each byte of it and its size word lies in memory of the heap that nobody else holds |
| `HeapLaws.RepresentableIff` | src/utility/heap.cc:22-43 | the 32-bit sums of the size computation and of the search make no difference if and only if the request is at most 2^32-21 bytes, or the block they lead to happens to be the right one, or they lead to none |
| `HeapLaws.OversizedHarms` | src/utility/heap.cc:22-43 | any other request gets a block too small for it, or makes the first free block grow over memory that is not its own or shrink below a link |
| `HeapLaws.FreeKeeps` | src/utility/heap.cc:51-67 | every release of an outstanding block keeps the invariant |
| `HeapLaws.SeedKeeps` | src/utility/heap.cc:56-67 | so does a new region, next to the old ones or apart |
| `HeapLaws.AllReturnedIsMaximal` | include/utility/list.h:1156-1175 | with nothing outstanding each free block is a longest run of the heap's addresses: coalescing is complete |
| `HeapLaws.AllReturnedIsWhole` | include/utility/list.h:1156-1175 | a heap of one region with nothing outstanding is that region as one block |
| `HeapLaws.FreeUndoesAlloc` | src/utility/heap.cc:22-67 | a release right after its allocation gives back the same free blocks, and the same list unless the fit was exact |
| `HeapLaws.RunKeeps` | src/utility/heap.cc:22-67 | the invariant holds after every sequence of gifts, allocations and releases |
| `HeapLaws.FragmentationEnds` | src/utility/heap.cc:22-67 | in every run on one region, whenever nothing is outstanding the free list is that region as one block |
| `AlarmModel.NewKeeps` | src/abstraction/alarm.cc:22-40 | a new alarm keeps the queue sorted by waiting time and every waiting time honest |
| `AlarmModel.DestroyKeeps` | src/abstraction/alarm.cc:42-51 | the destructor takes the alarm off the queue, and nobody else, and keeps every waiting time honest |
| `AlarmModel.TickKeeps` | src/abstraction/alarm.cc:73-105 | so does a tick, with its one firing and re-insertion |
| `AlarmModel.FiringLaw` | src/abstraction/alarm.cc:82-96 | the n-th firing comes at least n times its ticks after the creation, and the alarm stays queued exactly while firings remain: for ever if asked for -1 or 0, otherwise for as many as the 32-bit counter takes to come down to zero, round the far end for numbers below -1 |
| `AlarmLaws.RunKeeps` | src/abstraction/alarm.cc:22-105 | the queue invariant over every run of creations, destructions and ticks |
| `AlarmLaws.Life` | src/abstraction/alarm.cc:22-105 | for every number of ticks, none too, what the state records of an alarm is what the run did with it from its creation on: its ticks, its times, the time passed and how often it has fired |
| `AlarmLaws.AtOnce` | src/abstraction/alarm.cc:34-40 | over every run an alarm asked for less than a tick fires as it is created, never waits and never fires again; any other one does not fire as it is created |
| `AlarmLaws.NeverEarly` | src/abstraction/alarm.cc:73-105 | over every run an alarm with t ticks fires its n-th time after at least n*t ticks, never more often than its 32-bit counter tells, and leaves the queue at exactly the last time |
| `AlarmLaws.OnlyLiveFire` | src/abstraction/alarm.cc:42-51 | an alarm that was destroyed or never created does not fire |
| `AlarmLaws.WaitSteps` | src/abstraction/alarm.cc:22-105 | a waiting alarm waits as long as before whatever is created, destroyed or queued again, and one tick less after a tick, unless that tick fires late: then nobody comes closer |
| `AlarmLaws.SlotIsDuePlusTies` | src/abstraction/alarm.cc:82-96 | with one firing per tick the i-th alarm's slot is its due tick plus the ties before it |
| `AlarmLaws.Schedule` | src/abstraction/alarm.cc:82-96 | one-shot alarms with no later insertion or removal fire in exactly those slots |
| `AlarmLaws.ExactLateness` | src/abstraction/alarm.cc:82-96 | so the lateness of each is exactly the number of ties so far |
| `AlarmClock.AlarmQueue.New` | src/abstraction/alarm.cc:22-40 | the constructor over the relative list takes the specified step; zero ticks run the handler at once |
| `AlarmClock.AlarmQueue.Destroy` | src/abstraction/alarm.cc:42-51 | the destructor, harmless for an alarm not queued |
| `AlarmClock.AlarmQueue.Handler` | src/abstraction/alarm.cc:73-105 | the tick handler on the pointer list of differences is the tick on absolute waiting times, and names the alarm that fires |
| `KernelLaws.DispatchKeeps` | include/thread.h:177-201 | handing the CPU over leaves exactly the chosen thread running and on the CPU, and every other one to go on where it left off |
| `KernelLaws.RescheduleKeeps` | src/abstraction/thread.cc:252-263 | a time slice keeps the kernel invariant |
| `KernelAdmin.CreateIff` | src/abstraction/thread.cc:27-44 | creating a thread keeps the invariant if and only if it starts blocked or ready, or starts running and comes first in the ready list |
| `KernelAdmin.DestroyIff` | src/abstraction/thread.cc:46-86 | deleting a thread keeps it if and only if it is not idle and, when it deletes itself, its joiner is blocked |
| `KernelAdmin.PriorityIff` | src/abstraction/thread.cc:88-100 | changing a priority keeps it if and only if the thread is ready; or running with nobody else in the ready list; or blocked in no list and first in the ready list with its new rank |
| `KernelAdmin.WrongSaved` | src/abstraction/thread.cc:95-99 | with others ready, the head of the others passes for the running thread: if it is chosen nothing is saved or loaded, and otherwise what is on the CPU is saved in its context, and the chosen one's context is loaded, out of date if that is the caller |
| `KernelSteps.SuspendIff` | src/abstraction/thread.cc:136-152 | suspending keeps it if and only if the thread is not idle, waiting or finished |
| `KernelSteps.JoinIff` | src/abstraction/thread.cc:102-116 | joining keeps it if and only if the thread has finished or the caller is not idle |
| `KernelSteps.PassKeeps` | src/abstraction/thread.cc:118-134 | passing the CPU always keeps it |
| `KernelSteps.YieldKeeps` | src/abstraction/thread.cc:172-182 | yielding always keeps it |
| `KernelSteps.ResumeKeeps` | src/abstraction/thread.cc:154-167 | resuming always keeps it |
| `KernelSteps.ExitIff` | src/abstraction/thread.cc:184-205 | exiting keeps it if and only if the caller is not idle and its joiner, if any, exists and is blocked in no list |
| `KernelSteps.SleepIff` | src/abstraction/thread.cc:207-220 | sleeping keeps it if and only if the caller is not idle |
| `KernelSteps.WakeupKeeps` | src/abstraction/thread.cc:222-235 | waking the head of a queue always keeps it |
| `KernelSteps.WakeupAllKeeps` | src/abstraction/thread.cc:237-250 | waking everybody keeps it and empties the queue |
| `KernelRuns.StepIff` | src/abstraction/thread.cc:27-270 | each of the eighteen operations keeps the invariant if and only if its condition holds |
| `KernelRuns.BootIff` | src/abstraction/thread_init.cc:26-47 | booting with the first thread and idle establishes the invariant if and only if idle ranks behind the first thread |
| `KernelRuns.RunKeeps` | src/abstraction/thread.cc:27-270 | it holds in every run: link, state and chosen thread agree, one thread runs and is on the CPU, every other one has its own context saved, the thread count is right, the ready list is never empty |
| `KernelRuns.OneList` | include/thread.h:208-211 | a thread's one link is in the ready list exactly when it is ready or running, and in a wait queue exactly when it waits there; it runs exactly when it is chosen, and otherwise its saved context is its own |
| `KernelEffects.PassRuns` | src/abstraction/thread.cc:118-134 | `pass` to a ready thread makes it the running one |
| `KernelEffects.YieldSwitches` | src/abstraction/thread.cc:172-182 | `yield` hands over to another thread if and only if there is one |
| `KernelEffects.SuspendBlocks` | src/abstraction/thread.cc:136-152 | a suspended thread is in no ready list; who runs then is said by `KernelTurns.TurnGoesOn` and `KernelTurns.NextRuns` |
| `KernelEffects.ResumeReadies` | src/abstraction/thread.cc:154-167 | `resume` adds a suspended thread to the ready list and changes nobody else's place |
| `KernelEffects.JoinBlocks` | src/abstraction/thread.cc:102-116 | the caller of `join` is suspended and recorded as the joiner |
| `KernelEffects.ExitReleases` | src/abstraction/thread.cc:184-205 | the caller of `exit` is finished and leaves the ready list, which its joiner enters |
| `KernelEffects.SleepWaits` | src/abstraction/thread.cc:207-220 | the caller of `sleep` waits in that queue, at its rank, and nowhere else |
| `KernelEffects.WakeupAllReadies` | src/abstraction/thread.cc:237-250 | all waiters of the queue, and nobody else, join the ready list |
| `KernelEffects.WakeupReadies` | src/abstraction/thread.cc:222-235 | `wakeup` lets the head of the queue, and nobody else, run, and the others go on waiting |
| `KernelEffects.DropReadies` | include/synchronizer.h:24 | deleting a synchronizer lets everybody run who waited, and leaves nothing of it |
| `KernelEffects.PriorityRanks` | src/abstraction/thread.cc:88-100 | a ready thread gets the new rank and stays ready; no other rank changes |
| `KernelJoin.PoliteIsGuarded` | src/abstraction/thread.cc:102-116 | threads that keep to one joiner each, resumed and deleted by nobody else, meet every condition |
| `KernelJoin.ExitJoiners` | src/abstraction/thread.cc:184-205 | an exit releases the joiner and nobody else |
| `KernelJoin.PoliteStep` | src/abstraction/thread.cc:27-270 | one step of such threads keeps the invariant and every joiner suspended |
| `KernelJoin.PoliteRunKeeps` | src/abstraction/thread.cc:27-270 | over every run of such threads the kernel never leaves its invariant, and an exiting thread always finds its joiner suspended |
| `KernelOrder.ForemostRuns` | src/abstraction/thread.cc:184-263 | after each preemptive reschedule, sleep or exit the running thread heads the ready list and nobody in it ranks before it |
| `KernelOrder.RoundRobin` | include/utility/list.h:1061-1112 | m threads of equal top rank are run in turn by consecutive time slices, each once in any m |
| `KernelTurns.TurnGoesOn` | src/abstraction/thread.cc:136-152 | suspending or deleting another thread, and each other operation that does not end a turn, leaves the CPU to the running thread, and the ready list in its order without the one taken off |
| `KernelTurns.NextRuns` | src/abstraction/thread.cc:102-152 | when the running thread suspends itself, joins or sleeps, the others keep their order and the first of them in the ready list runs |
| `KernelTurns.NoOvertaking` | include/utility/list.h:1027-1112 | in every operation that meets its condition a ready thread that keeps its place stays in front of each one of its own or a higher rank that was behind it, has had its turn or was not ready, and none of these gets the CPU first but by `pass` |
| `KernelTurns.InTurn` | src/abstraction/thread.cc:102-250 | so over every run |
| `KernelTurns.LongestReadyRuns` | src/abstraction/thread.cc:102-250 | so whoever runs when a turn ends was ready, and in front, when any other thread that still waits with the same or a lower rank took its place: among equals the one ready longest |
| `KernelTurns.ExitPassesOver` | src/abstraction/thread.cc:184-205 | but an exit queues the next thread again before it has run: it runs if and only if all others, the joiner too, rank behind it |
| `KernelTurns.DestroyForgets` | src/abstraction/thread.cc:46-86 | a thread that is deleted and does not run is forgotten, and counted out unless it had finished |
| `Semaphores.QueueSteps` | include/semaphore.h:29-49 | over all operations that meet their conditions a semaphore's 32-bit value and its queue change only by `p`, `v` and the deletion of a waiting thread, and how |
| `Semaphores.AccountingIff` | include/semaphore.h:29-49 | waiters = max(0, -value) survives such an operation if and only if it does not delete a waiter and is neither a `v` on 2147483647 nor a `p` on -2147483648 |
| `Semaphores.InitialIff` | include/semaphore.h:20-23 | and starts out true if and only if the initial value is not negative |
| `Semaphores.SemaphoreAccounting` | include/semaphore.h:29-49 | over every run that deletes no waiter: always value = initial + #v - #p, waiters = max(0, -value), and exactly min(#p, initial + #v) calls of `p` have passed, if and only if initial + #v - #p never leaves 32 bits |
| `Semaphores.UnitsLost` | include/semaphore.h:40-49 | a `v` on 2147483647 loses every unit, and the next `p` blocks |
| `Semaphores.WakesLowestRank` | include/semaphore.h:40-49 | a `v` on a negative value makes exactly the head of the queue ready, and no waiter ranks before it |
| `Semaphores.Fifo` | src/abstraction/thread.cc:207-235 | in every single operation that meets its condition a waiter behind another neither overtakes it nor leaves first |
| `Semaphores.NewcomerBehind` | src/abstraction/thread.cc:207-220 | a newcomer waits behind all waiters of its own or a lower rank |
| `Semaphores.StillBehind` | src/abstraction/thread.cc:207-235 | over every run a thread that waits behind another one still does for as long as that one waits |
| `Semaphores.FirstComeFirstServed` | src/abstraction/thread.cc:207-235 | over every run whoever calls `p` in vain waits behind each earlier waiter of the same or a lower rank for as long as that one waits |
| `Mutexes.RunKeeps` | include/mutex.h:27-43 | a mutex whose user does not block idle keeps the kernel invariant over every run |
| `Mutexes.ExclusionIff` | include/mutex.h:27-43 | over every run two threads are never inside at once if and only if, whenever an `unlock` has woken a thread, no other one calls `lock` first |
| `Mutexes.BothInside` | include/mutex.h:27-43 | from any free mutex and any other ready thread but idle, seven calls bring both inside |
| `Mutexes.MutexObject.Lock` | include/mutex.h:27-35 | `lock` on objects is the step of the model: test and set, and sleep without a second test |
| `Mutexes.MutexObject.Unlock` | include/mutex.h:37-43 | `unlock` on objects is the step of the model: clears the lock, and wakes a thread all the same |
| `ProducerConsumer.NoOverwrite` | app/pc_app.cc:39-48 | the producer writes only into a slot whose item has been consumed |
| `ProducerConsumer.NoEmptyRead` | app/pc_app.cc:23-33 | the consumer reads only the next item not yet consumed |
| `ProducerConsumer.StartsFromBoot` | app/pc_app.cc:16-20 | a run of the kernel from boot reaches the state the application starts in |
| `ProducerConsumer.AppRunKeeps` | app/pc_app.cc:14-48 | the buffer and semaphore invariant over every interleaving with any other threads, any size and number of rounds |
| `ProducerConsumer.ConsumedIsPrefix` | app/pc_app.cc:14-48 | what has been consumed is always a prefix of what has been produced, at most a buffer behind |
| `Threads.KernelObject.SetState` | include/thread.h:208 | writing the state field changes that thread's record and no other |
| `Threads.KernelObject.SetWaiting` | include/thread.h:209 | the same for `_waiting` |
| `Threads.KernelObject.SetJoining` | include/thread.h:210 | the same for `_joining` |
| `Threads.KernelObject.Insert` | include/utility/list.h:1027-1037 | insertion of the thread's link into the pointer list of ready threads is the step of the model |
| `Threads.KernelObject.Remove` | include/utility/list.h:1053-1059 | removal of it is the step of the model |
| `Threads.KernelObject.Choose` | include/utility/list.h:1061-1070 | so is choosing the head |
| `Threads.KernelObject.ChooseAnother` | include/utility/list.h:1072-1083 | so is choosing another one |
| `Threads.KernelObject.ChooseThread` | include/utility/list.h:1099-1105 | so is choosing a given thread, null when it is not ready |
| `Threads.KernelObject.SwitchContext` | src/arch/ia32/cpu.cc:46-57 | what is on the CPU is saved in one thread, and what another one has saved goes on |
| `Threads.KernelObject.LoadContext` | src/abstraction/thread_init.cc:47 | the boot code gives way to a thread |
| `Threads.KernelObject.Dispatch` | include/thread.h:177-201 | `dispatch` on objects is the step of the model |
| `Threads.KernelObject.Reschedule` | src/abstraction/thread.cc:252-263 | so is `reschedule` |
| `Threads.KernelObject.CommonConstructor` | src/abstraction/thread.cc:27-44 | so are the constructors |
| `Threads.KernelObject.Destroy` | src/abstraction/thread.cc:46-86 | so is the destructor, branch by branch |
| `Threads.KernelObject.SetPriority` | src/abstraction/thread.cc:88-100 | so is `priority` |
| `Threads.KernelObject.Join` | src/abstraction/thread.cc:102-116 | so is `join` |
| `Threads.KernelObject.Pass` | src/abstraction/thread.cc:118-134 | so is `pass` |
| `Threads.KernelObject.Suspend` | src/abstraction/thread.cc:136-152 | so is `suspend` |
| `Threads.KernelObject.Resume` | src/abstraction/thread.cc:154-167 | so is `resume` |
| `Threads.KernelObject.Yield` | src/abstraction/thread.cc:172-182 | so is `yield` |
| `Threads.KernelObject.Exit` | src/abstraction/thread.cc:184-205 | so is `exit` |
| `Threads.KernelObject.Sleep` | src/abstraction/thread.cc:207-220 | so is `sleep` |
| `Threads.KernelObject.Wakeup` | src/abstraction/thread.cc:222-235 | so is `wakeup` |
| `Threads.KernelObject.WakeupAll` | src/abstraction/thread.cc:237-250 | the loop of `wakeup_all` over the pointer list is the recursion of the model |
| `Threads.KernelObject.TakeNext` | src/abstraction/thread.cc:222-228 | the head of the wait queue comes off, and its link is in no list any more |
| `Threads.KernelObject.LineUp` | src/abstraction/thread.cc:207-216 | a thread that has left the ready list enters the wait queue at its rank |
| `Threads.KernelObject.Quit` | src/abstraction/thread.cc:72-75 | a thread leaves its wait queue wherever it is in it |
| `Threads.KernelObject.NewSemaphore` | include/semaphore.h:20-23 | so is the construction of a semaphore |
| `Threads.KernelObject.DropQueue` | include/synchronizer.h:24 | so is the destructor of synchronizers, which wakes everybody |
| `Threads.KernelObject.P` | include/semaphore.h:29-38 | so is `p`, with the fetch-and-decrement read before the write |
| `Threads.KernelObject.V` | include/semaphore.h:40-49 | so is `v` |
| `ThreadLinks.ThreadLists.Insert` | include/utility/list.h:1027-1037 | a link in no list enters the pointer list of ready threads as the step of the model says, and is in no other list |
| `ThreadLinks.ThreadLists.Remove` | include/utility/list.h:1053-1059 | a thread leaves the pointer list of ready threads |
| `ThreadLinks.ThreadLists.Choose` | include/utility/list.h:1061-1070 | the chosen link is relinked behind its equals and the head is chosen |
| `ThreadLinks.ThreadLists.ChooseAnother` | include/utility/list.h:1072-1083 | the head of the others is chosen |
| `ThreadLinks.ThreadLists.ChooseThread` | include/utility/list.h:1099-1105 | a given thread is chosen, none when its link is elsewhere |
| `ThreadLinks.ThreadLists.Next` | src/abstraction/thread.cc:222-228 | the head of a wait queue comes off, its link in no list any more |
| `ThreadLinks.ThreadLists.Quit` | src/abstraction/thread.cc:72-75 | a thread leaves its wait queue wherever it is in it |
| `ThreadLinks.ThreadLists.LineUp` | src/abstraction/thread.cc:207-216 | a link in no list enters a wait queue at its rank |
| `ThreadLinks.ThreadLists.SetRank` | src/abstraction/thread.cc:95-97 | a link in no list gets another rank |
| `ThreadLinks.ThreadLists.ReadyOnly` | include/thread.h:208-211 | a thread in the ready list waits nowhere, and its link is in no list once it has left that one |
| `ThreadLinks.ThreadLists.FreeIff` | include/thread.h:208-211 | whether a link is in a list can be told from the abstract lists |
| `ThreadLinks.LinksSafe` | src/abstraction/thread.cc:27-250 | an operation that meets its condition puts a link into a list only when it is in none, at every place where it does so: what the methods of `Threads.KernelObject` ask of links |
| `ThreadLinks.RunLinksSafe` | src/abstraction/thread.cc:27-250 | so over every run a thread's one link is never in two pointer lists |
| `TcpSafety.HandleSends` | src/abstraction/tcp.cc:494-499 | no state handler sends anything but acknowledgements at `snd_nxt`, and none re-enters LISTEN |
| `TcpSafety.SoundStep` | src/abstraction/tcp.cc:169-228 | whatever a side does, all it ever put on the network is its SYN, bytes of its stream at their sequence numbers, or a FIN at the length its stream had at a close |
| `TcpSafety.TakenInOrder` | src/abstraction/tcp.cc:509-519 | a timely segment at `rcv_nxt` carries the bytes that come next, however long the stream is |
| `TcpSafety.AgreesStep` | src/abstraction/tcp.cc:248-492 | whatever arrives in time, what the application has been given stays a prefix of the peer's stream |
| `TcpSafety.PeerStep` | src/abstraction/tcp.cc:169-176 | and stays one as the peer sends more |
| `TcpSafety.RunKeeps` | src/abstraction/tcp.cc:169-519 | both sides stay sound and in agreement over every run on a network that loses, repeats and reorders, as long as nothing arrives 2^32 bytes late |
| `TcpSafety.StreamSafety` | src/abstraction/tcp.cc:346-399 | on such a network and for streams of any length each application has been given a prefix of what the other one sent; one told that its peer is closing has all the peer sent before a close |
| `TcpSafety.ShortStreamTimely` | src/abstraction/tcp.cc:509-519 | as long as the peer has sent less than 2^32 bytes nothing can be late |
| `TcpSafety.YoungTimely` | src/abstraction/tcp.cc:509-519 | nor is a segment that arrives before the peer has sent 2^32 bytes more, at a receiver not that far behind |
| `TcpSafety.Handshake` | src/abstraction/tcp.cc:248-343 | between a client and a server `rcv_ini` is the peer's first number and `rcv_nxt` that plus one plus the bytes given so far |
| `TcpSafety.CrossedOpenForgets` | src/abstraction/tcp.cc:318-323 | when both ends connect at once, the one that gets the bare SYN overwrites its own initial number, keeps it if and only if they are equal, and does not note the other's |
| `TcpSafety.TakenIff` | src/abstraction/tcp.cc:369-399 | late or not: a segment is taken exactly when its offset looks right modulo 2^32, and the prefix survives exactly when the offset is right or the stream repeats there |
| `TcpSafety.OldByteTaken` | src/abstraction/tcp.cc:369-399 | a byte from 2^32 bytes ago is taken for the next one |
| `TcpSafety.LosslessDelivers` | src/abstraction/tcp.cc:346-357 | any number of chunks within the window that arrive in order are all delivered |
| `TcpSafety.HandshakeCompletes` | src/abstraction/tcp.cc:215-343 | three segments connect a client and a server, each application is told once, and each end knows the other's window and numbers |
| `TcpLife.InformedStep` | src/abstraction/tcp.cc:194-492 | whatever a side does, the callbacks made so far lead, one by one, to the phase of the connection that its state stands for |
| `TcpLife.Story` | src/abstraction/tcp.cc:194-492 | callbacks in such an order tell at most once that the connection is there, that the peer closes and that all is over; bytes come only after the first, and nothing after the last |
| `TcpLife.Told` | src/abstraction/tcp.cc:194-492 | over every run an application has been told that the connection is there if and only if its end has been in ESTABLISHED, and that the peer closes if and only if it has been in CLOSE_WAIT |
| `TcpLife.ToldOnce` | src/abstraction/tcp.cc:194-492 | so over every run each of these is told exactly once or not at all: `closing` once while in CLOSE_WAIT or LAST_ACK and not before, `closed` once and last if and only if the end, once begun, is back in CLOSED, `connected` before any bytes |
| `TcpLife.EndsIff` | src/abstraction/tcp.cc:194-492 | a segment ends a connection if and only if it breaks it off or completes its closing; what the application is told then, of which error, and what is acknowledged |
| `TcpLife.ResetHeededIff` | src/abstraction/tcp.cc:287-487 | a bare reset in its place is heeded if and only if the connection still opens or the application has not closed its end |
| `TcpLife.OutOfPlace` | src/abstraction/tcp.cc:509-519 | outside its place a segment changes nothing and is not answered, but while opening |
| `TcpLife.FinTaken` | src/abstraction/tcp.cc:369-436 | a FIN in its place takes ESTABLISHED, FIN_WAIT1 and FIN_WAIT2 on, and is acknowledged last, with the place behind all bytes |
| `TcpLife.FlaglessIgnored` | src/abstraction/tcp.cc:287-487 | without a flag, and without bytes that anybody waits for, a segment tells its window at most |
| `TcpLife.WindowTaken` | src/abstraction/tcp.cc:287-487 | from which segments the peer's window, its first number and what it has acknowledged are taken over |
| `TcpLife.Acknowledged` | src/abstraction/tcp.cc:346-399 | over the stream of an honest peer: bytes taken in are acknowledged at once but for the last one, a FIN behind all of them, and nothing else is answered once the connection is there |
| `TcpLife.SentAcknowledges` | src/abstraction/tcp.cc:169-176 | and so is what the application sends: all it has been given but the last byte |
| `TcpLife.AfterClose` | src/abstraction/tcp.cc:402-474 | bytes that come after the application has closed are not given to it; those that acknowledge its FIN are acknowledged all the same |
| `TcpLife.CloseCompletes` | src/abstraction/tcp.cc:194-474 | two ends in step, of which one closes and then the other: once the FINs and their acknowledgements have arrived both are in CLOSED, and both applications are told, the second one before it closes also that the first has |
| `TcpLife.ClosesCross` | src/abstraction/tcp.cc:194-423 | if both close at once each other's FIN is enough, and neither is told that the other one closes |
| `TcpSocket.SocketObject.Listen` | src/abstraction/tcp.cc:242-246 | a socket that has not begun stays sound as it listens |
| `TcpSocket.SocketObject.Connect` | src/abstraction/tcp.cc:215-228 | the fields and the SYN of `connect`, the step of an endpoint in the runs above; a first call keeps everything ever put on the network sound |
| `TcpSocket.SocketObject.Send` | src/abstraction/tcp.cc:169-176 | the data segment goes out at the old `snd_nxt`, acknowledging one byte short, and the stream stays sound |
| `TcpSocket.SocketObject.Close` | src/abstraction/tcp.cc:194-206 | a FIN in every state, and the state change of three; sound at the length of the stream |
| `TcpSocket.SocketObject.OnListen` | src/abstraction/tcp.cc:248-284 | `__LISTEN`: whatever socket `incoming` returns answers with SYN and ACK, and is sound if it has not begun |
| `TcpSocket.SocketObject.OnSynSent` | src/abstraction/tcp.cc:287-325 | `__SYN_SENT`: fields and callbacks of the model, and nothing goes out but acknowledgements at `snd_nxt` |
| `TcpSocket.SocketObject.OnSynRcvd` | src/abstraction/tcp.cc:327-344 | `__SYN_RCVD`: fields and callbacks of the model, and nothing goes out but acknowledgements at `snd_nxt` |
| `TcpSocket.SocketObject.Receiving` | src/abstraction/tcp.cc:346-357 | `__RCVING`: the acknowledgement goes out before the last byte is counted |
| `TcpSocket.SocketObject.OnEstablished` | src/abstraction/tcp.cc:369-399 | `__ESTABLISHED`: fields and callbacks of the model, and nothing goes out but acknowledgements at `snd_nxt` |
| `TcpSocket.SocketObject.OnFinWait1` | src/abstraction/tcp.cc:402-423 | `__FIN_WAIT1`: fields and callbacks of the model, and nothing goes out but acknowledgements at `snd_nxt` |
| `TcpSocket.SocketObject.OnFinWait2` | src/abstraction/tcp.cc:425-436 | `__FIN_WAIT2`: fields and callbacks of the model, and nothing goes out but acknowledgements at `snd_nxt` |
| `TcpSocket.SocketObject.OnCloseWait` | src/abstraction/tcp.cc:438-451 | `__CLOSE_WAIT`: fields and callbacks of the model, and nothing goes out but acknowledgements at `snd_nxt` |
| `TcpSocket.SocketObject.OnClosing` | src/abstraction/tcp.cc:453-474 | `__CLOSING` and `__LAST_ACK`: fields and callbacks of the model, and nothing goes out but acknowledgements at `snd_nxt` |
| `TcpSocket.SocketObject.OnTimeWait` | src/abstraction/tcp.cc:476-487 | `__TIME_WAIT`: the last acknowledgement is counted, and nothing goes out |
| `TcpSocket.SocketObject.Update` | src/abstraction/tcp.cc:58-73 | the handler of the state, with what `incoming` returned when listening; whatever arrives, what goes out stays sound, the application is told just what happens to its connection, and a timely segment of an honest peer leaves what it has been given a prefix of the peer's stream |
| `Checksum.FoldIs` | src/abstraction/ip.cc:181-182 | the carry loop ends, with 0 only for 0 and otherwise with the one number in 1..65535 congruent modulo 65535 |
| `Checksum.FoldAdd` | src/abstraction/ip.cc:181-182 | folding early or late makes no difference |
| `Checksum.Calculate` | src/abstraction/ip.cc:168-185 | the word loop with its odd last byte computes the folded sum, within 32 bits |
| `Checksum.FoldLoop` | src/abstraction/ip.cc:181-182 | the loop computes the fold |
| `Checksum.CalculateHeader` | src/abstraction/ip.cc:17-21 | the header in memory is the old one with the complement in its checksum field |
| `Checksum.HeaderValid` | src/abstraction/ip.cc:17-21 | a header just checksummed sums to 0xFFFF |
| `Checksum.OneWordChanged` | src/abstraction/ip.cc:168-185 | a valid checksum misses the change of one word if and only if it is between 0x0000 and 0xFFFF |
| `Checksum.CalculateSegment` | src/abstraction/tcp.cc:102-128 | the piecewise checksum ends up in the header, its running sum within 32 bits |
| `Checksum.Validate` | src/abstraction/tcp.cc:84-100 | the receiver's check over the contiguous segment |
| `Checksum.PiecesAgree` | src/abstraction/tcp.cc:119-122 | pieces of even length but for the last sum up like the bytes in one run |
| `Checksum.SumsAgreeIff` | src/abstraction/tcp.cc:84-128 | the segment validates if and only if pieces and bytes agree modulo 65535 |
| `Checksum.WordSumOdd` | src/abstraction/ip.cc:168-185 | behind an odd number of bytes a run of words counts 256 times, modulo 65535 |
| `Checksum.SegmentValidatesIff` | src/abstraction/tcp.cc:84-128 | so the segment validates if and only if the words of the pieces that start at odd offsets sum up to a multiple of 257 |
| `Checksum.SegmentValid` | src/abstraction/tcp.cc:84-176 | so a segment from a single buffer, or with only the last piece odd, always validates |
| `Checksum.OddPieceSpoils` | src/abstraction/tcp.cc:119-122 | two one-byte pieces do not |
| `Crc.Calculate` | include/utility/crc.h:20-35 | the two nested loops compute the byte-wise sum |
| `Crc.ShiftXor` | include/utility/crc.h:26-30 | one turn of the inner loop is linear over exclusive or |
| `Crc.ByteIsBits` | include/utility/crc.h:23-31 | a byte at once equals its eight bits one by one |
| `Crc.FeedXor` | include/utility/crc.h:20-35 | the difference of two sums is the sum of the difference |
| `Crc.BurstDetected` | include/utility/crc.h:20-35 | messages of any one length that differ within 16 consecutive bits have different sums |
| `Crc.OddDetected` | include/utility/crc.h:20-35 | so have messages that differ in an odd number of bits |
| `Cmac.Mac.Pack` | include/cmac.h:1251-1301 | the buffer holds the specified frame, with the bit fields not set keeping what was there, and nothing beyond it changes |
| `Cmac.Mac.Unpack` | include/cmac.h:1312-1376 | the outcome, the copied payload, the sender, the sequence number and the counters; for frames shorter than header and trailer, and for payloads too long for the receiver, whether its buffer is left |
| `Cmac.UnpackedFromIs` | include/cmac.h:1312-1366 | a frame with header and trailer overruns the receiver if and only if it would be accepted with a payload too long |
| `Cmac.ShortestFrames` | include/cmac.h:1341-1346 | a frame of two bytes of zero has a right checksum and is nobody's |
| `Cmac.ControlFields` | include/cmac.h:1270-1273 | a packed frame is a data frame inside one network with short addresses at both ends, and its other control bits are what the buffer held |
| `Cmac.PackUnpack` | include/cmac.h:1251-1366 | a packed frame yields payload, sender and sequence number at its addressee, at everybody for a broadcast, and nothing elsewhere |
| `Cmac.BurstDropped` | include/cmac.h:1341-1346 | a frame with a burst of at most 16 bits in its covered bytes is dropped by every receiver |
| `FrameErrors.BurstDroppedIff` | include/cmac.h:1341-1346 | a frame with a burst of at most 16 bits anywhere is dropped by every receiver, if and only if the burst is not one of twelve across the border between the covered bytes and the checksum, whose low byte comes first |
| `FrameErrors.BurstMissed` | include/cmac.h:1264-1287 | the first of the twelve is missed in every frame |
| `FrameErrors.BlindIff` | include/utility/crc.h:20-35 | which bursts across the border change sum and checksum alike |
| `FrameErrors.OddDropped` | include/cmac.h:1341-1346 | a frame with an odd number of wrong bits anywhere is dropped |
| `Cmac.TrailerDropped` | include/cmac.h:1341-1346 | with intact covered bytes a frame is dropped if and only if its checksum bytes are wrong |
| `Strings.DetectsZero` | src/utility/string.cc:389 | `(x - 0x01010101) & ~x & 0x80808080` is non-zero if and only if some byte of x is zero |
| `Strings.DetectsByte` | src/utility/string.cc:123-126 | on x exclusive-or the mask it is non-zero if and only if some byte of x is the one sought |
| `Strings.Strlen` | src/utility/string.cc:376-397 | for every alignment the result is the distance to the first zero byte |
| `Strings.Memchr` | src/utility/string.cc:102-143 | for every alignment and length the first occurrence, or none |
| `Strings.Strchr` | src/utility/string.cc:324-374 | for every alignment the first place of the character in the string, or none; the end of the string for a zero |
| `Strings.Strcmp` | src/utility/string.cc:192-220 | the difference at the first place where the strings part, whichever loop finds it |
| `Strings.ComparesEqual` | src/utility/string.cc:192-220 | so the result is zero if and only if the strings are equal |
| `Strings.Strncmp` | src/utility/string.cc:222-256 | the difference at the first place where the strings part within n bytes, zero if they do not, and nothing is read beyond n bytes or the end of a string |
| `Strings.UpToEqual` | src/utility/string.cc:222-256 | so the result is zero if and only if the first n bytes agree or the strings end together before |
| `Strings.Strcpy` | src/utility/string.cc:258-281 | the string and its terminator are copied and no other byte of memory changes, also on the way to a lower address inside the string |
| `Decimals.Itoa` | src/utility/string.cc:426-456 | the digits collected backwards in eleven places come out as the decimal text in the destination, with a zero behind it and nothing changed beyond; a sign and ten digits need twelve places there |
| `Decimals.FitsElevenIff` | src/utility/string.cc:426-456 | eleven places are enough if and only if the number is at least -999999999, and twelve always are |
| `Decimals.Atol` | src/utility/string.cc:410-424 | what 32 bits hold of the number in front of the first character that is not a digit, for every text |
| `Decimals.RoundTrip` | src/utility/string.cc:410-456 | reading back what was written gives the number, for all 32-bit numbers as long as sums wrap |
| `Decimals.FitsIff` | src/utility/string.cc:417-423 | of any text, every value computed on the way fits 32 bits if and only if its number is from -2147483599 to 2147483599 |
| `Decimals.JustTooLarge` | src/utility/string.cc:420 | 2147483600 does not fit on the way although it does in the end |
| `SpinLock.StepIff` | include/utility/spin.h:33-52 | every access to the lock's words keeps owner, level and depths in agreement, if and only if it is not the end of a release that leaves a positive multiple of 2^32 acquisitions behind |
| `SpinLock.RunKeeps` | include/utility/spin.h:33-52 | over every interleaving of any number of CPUs that nest up to 2^32 deep |
| `SpinLock.MutualExclusion` | include/utility/spin.h:33-52 | at most one CPU is inside, it owns the lock and the level is its depth up to the release in flight |
| `SpinLock.ReleasedAtZero` | include/utility/spin.h:45-47 | a release gives the lock up exactly when the depth reaches zero |
| `SpinLock.Spin.Swap` | include/arch/ia32/cpu.h:372-378 | compare and swap, and the value found |
| `SpinLock.AcquiredIs` | include/utility/spin.h:33-37 | undisturbed, the steps of an acquisition, two swaps among them when the lock is free, leave the caller the owner one level up |
| `SpinLock.ReleasedIs` | include/utility/spin.h:45-47 | undisturbed, the steps of a release leave it one level down, and free at zero |
| `SpinLock.ReleaseIff` | include/utility/spin.h:45-47 | a release keeps the lock in order if and only if the caller holds it, and not a positive multiple of 2^32 times more |
| `SpinLock.Spin.Acquire` | include/utility/spin.h:33-37 | the call on the lock's two words is those steps, and leaves the caller the owner one deeper |
| `SpinLock.Spin.Release` | include/utility/spin.h:45-47 | the call is the steps of a release; it keeps the lock in order exactly under the condition of `ReleaseIff`, and then frees it exactly at the last release |
| `SipModel.ClientInviteKeeps` | src/abstraction/sip_transactions.cc:79-255 | in every state of an INVITE client exactly its own timers run, each with one alarm |
| `SipModel.ClientNonInviteKeeps` | src/abstraction/sip_transactions.cc:328-463 | the same for other clients |
| `SipModel.ServerInviteKeeps` | src/abstraction/sip_transactions.cc:525-696 | the same for an INVITE server |
| `SipModel.ServerNonInviteKeeps` | src/abstraction/sip_transactions.cc:778-880 | the same for other servers |
| `SipLaws.RunExact` | src/abstraction/sip_transactions.cc:79-880 | so over every run of requests, responses, errors and expiring timers |
| `SipLaws.OneFinalIff` | src/abstraction/sip_transactions.cc:175-205 | a client's user agent gets one final response and no more, if and only if no transport error reaches an INVITE client that has one |
| `SipLaws.RunOneFinal` | src/abstraction/sip_transactions.cc:79-463 | so over every run without that event |
| `SipLaws.HeardOnceKeeps` | src/abstraction/sip_transactions.cc:525-551 | a server's user agent hears a request once, however often it is repeated |
| `SipLaws.RunHeardOnce` | src/abstraction/sip_transactions.cc:525-880 | over every run |
| `SipLaws.ClientTerminates` | src/abstraction/sip_transactions.cc:328-463 | a non-INVITE client is gone once timers F and K have run out, give or take the lateness of two alarms |
| `SipLaws.AtMostSeven` | src/abstraction/sip_transactions.cc:79-221 | an INVITE goes out at most seven times before timer B ends it |
| `SipLaws.Lasts` | src/abstraction/sip_transactions.cc:79-880 | over every run each state with a deadline has it exactly so long after it was entered (64*T1, T4 or 32 seconds scaled, by kind and state), and lasts no longer but for how late an alarm fires |
| `SipLaws.NotBefore` | src/abstraction/sip_transactions.cc:223-880 | and is left by its timer, for good or to be deleted, no earlier |
| `SipLaws.LadderStep` | src/abstraction/sip_transactions.cc:404-666 | one repetition: the next one comes after twice the pause, or after T2 once that is reached or the client proceeds |
| `SipLaws.RunLaddered` | src/abstraction/sip_transactions.cc:328-682 | over every run the pauses between repetitions are T1, 2*T1, 4*T1 or T2 |
| `SipMessages.SaysStep` | src/abstraction/sip_transactions.cc:79-880 | each event of each kind of transaction sends and tells exactly the messages that the rules of its kind ask for |
| `SipMessages.MovesStep` | src/abstraction/sip_transactions.cc:79-880 | and leads exactly where the rules for requests, responses by their hundreds, errors and deadlines say |
| `SipMessages.RunRemembers` | src/abstraction/sip_transactions.cc:525-880 | over every run a server knows the response it was given last until it ends; the final responses that have gone out are exactly that one if it is final, and none if it is not |
| `SipMessages.RunSays` | src/abstraction/sip_transactions.cc:79-880 | so over every run: a response a server is given while it takes one goes out in that step, and a request repeated while it proceeds or has completed, or timer G, is answered with the one given last; a client tells each response it waits for, 503 for an error and 408 for timers B and F |
| `SipMessages.OnlyFinal` | src/abstraction/sip_transactions.cc:588-844 | the first final response that a server is given while it takes one goes out, and is the only final response it ever sends |
| `SipMessages.OneAckEach` | src/abstraction/sip_transactions.cc:143-173 | over every run an INVITE client has sent one ACK for each response from 300 on that found it calling, proceeding or completed |
| `SipMessages.ToldForCause` | src/abstraction/sip_transactions.cc:99-463 | over every run a client tells a response only if it arrived, or as 503 if the transport failed, or as 408 if timer B or F expired |
| `SipModel.StopStarted` | src/abstraction/sip_user_agent.cc:1140-1174 | a timer that has been started can be stopped if and only if it was not running before: otherwise an alarm goes on that nobody can stop |
| `SipModel.OthersRun` | src/abstraction/sip_transactions.cc:79-880 | a transaction leaves the timers of transactions of other kinds alone |
| `SipTransactions.ClientInviteTransaction.constructor` | src/abstraction/sip_transactions.cc:25-29 | a new transaction is in order if and only if no other one of its kind has the timers of the user agent |
| `SipTransactions.ClientInviteTransaction.SendInvite` | src/abstraction/sip_transactions.cc:79-96 | from idle the INVITE goes out and timers A and B start; exactly the timers of the new state run, and one final response has been told |
| `SipTransactions.ClientInviteTransaction.Receive1xx` | src/abstraction/sip_transactions.cc:99-118 | a calling client stops A and B and proceeds; the response is told, and later ones too; exactly the timers of the new state run, and one final response has been told |
| `SipTransactions.ClientInviteTransaction.Receive2xx` | src/abstraction/sip_transactions.cc:120-141 | the response ends a calling or proceeding client; exactly the timers of the new state run, and one final response has been told |
| `SipTransactions.ClientInviteTransaction.Receive3xx6xx` | src/abstraction/sip_transactions.cc:143-173 | a calling or proceeding client acknowledges, starts D and completes; repeated responses are acknowledged again; exactly the timers of the new state run, and one final response has been told |
| `SipTransactions.ClientInviteTransaction.TransportError` | src/abstraction/sip_transactions.cc:175-205 | a calling or completed client stops its timers, tells of a 503 and ends; its timers stay in order, and one final response is told if and only if there was none yet |
| `SipTransactions.ClientInviteTransaction.TimerAExpired` | src/abstraction/sip_transactions.cc:207-221 | a calling client doubles A and repeats the INVITE; exactly the timers of the new state run, and one final response has been told |
| `SipTransactions.ClientInviteTransaction.TimerBExpired` | src/abstraction/sip_transactions.cc:223-241 | a calling client tells of a 408 and ends; exactly the timers of the new state run, and one final response has been told |
| `SipTransactions.ClientInviteTransaction.TimerDExpired` | src/abstraction/sip_transactions.cc:243-255 | a completed client ends; exactly the timers of the new state run, and one final response has been told |
| `SipTransactions.ClientNonInviteTransaction.SendRequest` | src/abstraction/sip_transactions.cc:328-346 | from idle the request goes out and timers E and F start; exactly the timers of the new state run, and one final response has been told |
| `SipTransactions.ClientNonInviteTransaction.Receive1xx` | src/abstraction/sip_transactions.cc:348-361 | a trying or proceeding client proceeds and tells of the response, with E and F going on; exactly the timers of the new state run, and one final response has been told |
| `SipTransactions.ClientNonInviteTransaction.Receive2xx6xx` | src/abstraction/sip_transactions.cc:363-380 | it starts K, stops E and F, completes and tells of the response; exactly the timers of the new state run, and one final response has been told |
| `SipTransactions.ClientNonInviteTransaction.TransportError` | src/abstraction/sip_transactions.cc:382-402 | it stops E and F, tells of a 503 and ends; exactly the timers of the new state run, and one final response has been told |
| `SipTransactions.ClientNonInviteTransaction.TimerEExpired` | src/abstraction/sip_transactions.cc:404-428 | a trying client doubles E up to T2, a proceeding one sets it to T2, and the request is repeated; exactly the timers of the new state run, and one final response has been told |
| `SipTransactions.ClientNonInviteTransaction.TimerFExpired` | src/abstraction/sip_transactions.cc:430-449 | a trying or proceeding client tells of a 408 and ends; exactly the timers of the new state run, and one final response has been told |
| `SipTransactions.ClientNonInviteTransaction.TimerKExpired` | src/abstraction/sip_transactions.cc:451-463 | a completed client ends; exactly the timers of the new state run, and one final response has been told |
| `SipTransactions.ServerInviteTransaction.ReceiveInvite` | src/abstraction/sip_transactions.cc:525-551 | from idle the INVITE is told; a repeated one gets the last response again; exactly the timers of the new state run, and the request has been told once |
| `SipTransactions.ServerInviteTransaction.ReceiveAck` | src/abstraction/sip_transactions.cc:553-568 | a completed server starts I, stops G and H and is confirmed; exactly the timers of the new state run, and the request has been told once |
| `SipTransactions.ServerInviteTransaction.Send1xx` | src/abstraction/sip_transactions.cc:570-586 | a proceeding server keeps the response and sends it; exactly the timers of the new state run, and the request has been told once |
| `SipTransactions.ServerInviteTransaction.Send2xx` | src/abstraction/sip_transactions.cc:588-601 | a proceeding server sends the response and ends; exactly the timers of the new state run, and the request has been told once |
| `SipTransactions.ServerInviteTransaction.Send3xx6xx` | src/abstraction/sip_transactions.cc:603-623 | a proceeding server sends the response, starts G and H and completes; exactly the timers of the new state run, and the request has been told once |
| `SipTransactions.ServerInviteTransaction.TransportError` | src/abstraction/sip_transactions.cc:625-646 | a proceeding or completed server ends; exactly the timers of the new state run, and the request has been told once |
| `SipTransactions.ServerInviteTransaction.TimerGExpired` | src/abstraction/sip_transactions.cc:648-666 | a completed server doubles G up to T2 and sends the response again; exactly the timers of the new state run, and the request has been told once |
| `SipTransactions.ServerInviteTransaction.TimerHExpired` | src/abstraction/sip_transactions.cc:668-682 | a completed server ends without an ACK; exactly the timers of the new state run, and the request has been told once |
| `SipTransactions.ServerInviteTransaction.TimerIExpired` | src/abstraction/sip_transactions.cc:684-696 | a confirmed server ends; exactly the timers of the new state run, and the request has been told once |
| `SipTransactions.ServerNonInviteTransaction.ReceiveRequest` | src/abstraction/sip_transactions.cc:778-804 | from idle the request is told; a repeated one gets the last response again; exactly the timers of the new state run, and the request has been told once |
| `SipTransactions.ServerNonInviteTransaction.Send1xx` | src/abstraction/sip_transactions.cc:806-823 | a trying or proceeding server keeps the response, sends it and proceeds; exactly the timers of the new state run, and the request has been told once |
| `SipTransactions.ServerNonInviteTransaction.Send2xx6xx` | src/abstraction/sip_transactions.cc:825-844 | it sends the response, starts J and completes; exactly the timers of the new state run, and the request has been told once |
| `SipTransactions.ServerNonInviteTransaction.TransportError` | src/abstraction/sip_transactions.cc:846-866 | a proceeding or completed server ends; exactly the timers of the new state run, and the request has been told once |
| `SipTransactions.ServerNonInviteTransaction.TimerJExpired` | src/abstraction/sip_transactions.cc:868-880 | a completed server ends; exactly the timers of the new state run, and the request has been told once |
| `SipHeaders.Match` | src/abstraction/sip_defs.cc:112-180 | the loop cuts the text at the first separator outside brackets and quotes, or at the first one of all, and leaves the buffer for the result if and only if that is as far behind as the buffer is long |
| `SipHeaders.TrimBlanks` | src/abstraction/sip_defs.cc:195-217 | blanks go from both ends |
| `SipHeaders.SkipBlanks` | src/abstraction/sip_defs.cc:219-244 | and from the front |
| `SipHeaders.StartWith` | src/abstraction/sip_defs.cc:23-38 | whether one text begins with another |
| `SipHeaders.ContainsText` | src/abstraction/sip_defs.cc:40-61 | whether one text is in another; always yes for an empty text, and always yes for a single character |
| `SipHeaders.CutAt` | src/abstraction/sip_defs.cc:112-180 | a text that leaves no bracket or quote open is cut off at the separator behind it |
| `SipHeaders.LineBack` | src/abstraction/sip_header.cc:13-115 | a printed line comes back as a line with its name and its one value, whatever follows it, and has room in the buffers if and only if the name has at most 254 characters and both together have at most 508 |
| `SipHeaders.CSeqRoundTripIff` | src/abstraction/sip_header.cc:514-546 | a 32-bit sequence number comes back with any method, no buffer being left, if and only if it is below 2^31 or above 2^32-10^9: printed with a sign, all others are too long for the encoder |
| `SipHeaders.TwelveCharacters` | src/abstraction/sip_header.cc:535-540 | 2^31 is the first of them |
| `SipHeaders.CSeqLineIff` | src/abstraction/sip_header.cc:514-546 | the same for the line that is sent |
| `SipHeaders.AddressRoundTripIff` | src/abstraction/sip_header.cc:228-327 | a legal address with display, tag and loose routing comes back as printed, no buffer being left, if and only if there is no bracket in the display and no parameter in the address, and display, address, tag and all of it have at most 253, 253 (254 with loose routing), 507 and 511 characters |
| `SipHeaders.DisplayTooLong` | src/abstraction/sip_header.cc:242-247 | a display of 254 characters leaves the buffer |
| `SipHeaders.ParameterLost` | src/abstraction/sip_header.cc:247-252 | a parameter inside the brackets is lost |
| `SipHeaders.StarRoundTripIff` | src/abstraction/sip_header.cc:290-297 | a star in a contact comes back if and only if it is alone |
| `SipHeaders.ViaRoundTripIff` | src/abstraction/sip_header.cc:719-828 | the printed value of a legal Via comes back, no buffer being left, if and only if there is no colon in its host, its port is at least -999999999, and its parts have at most 254, its branch 247 and its received parameter 245 characters |
| `SipHeaders.LeastPort` | src/abstraction/sip_header.cc:796-801 | the least port leaves the encoder's buffer |
| `SipHeaders.ReferenceLost` | src/abstraction/sip_header.cc:754-764 | an IPv6 reference does not come back |
| `SipHeaders.BareIff` | src/abstraction/sip_header.cc:228-284 | a legal address written without brackets, its quotes closed, comes back with an empty display and without loose routing, no buffer being left, if and only if there is no bracket or semicolon in it, not even in quotes, and it has at most 254 characters and its tag 507 |
| `SipHeaders.PortlessIff` | src/abstraction/sip_header.cc:754-794 | a legal Via written without a port comes back with port 5060, no buffer being left, if and only if there is no colon in its host nor outside quotes in its parameters, name and version have at most 254 characters each, and host and parameters together have |
| `SipHeaders.CSeqHeader.Parse` | src/abstraction/sip_header.cc:514-533 | the fields are those of the specified parse, which fails alike, and whether a buffer is left is as specified |
| `SipHeaders.CSeqHeader.Encode` | src/abstraction/sip_header.cc:535-546 | the line is the specified one unless the number leaves its eleven characters |
| `SipHeaders.AddressHeader.Parse` | src/abstraction/sip_header.cc:228-284 | the loop over the parameters fills the fields as specified, fails alike, and leaves a buffer exactly when specified |
| `SipHeaders.AddressHeader.Encode` | src/abstraction/sip_header.cc:286-327 | the line is the specified one |
| `SipHeaders.ViaHeader.Parse` | src/abstraction/sip_header.cc:719-794 | the fields are those of the specified parse, on top of what the object held, which fails alike and leaves a buffer exactly when specified |
| `SipHeaders.ViaHeader.Encode` | src/abstraction/sip_header.cc:796-828 | the line is the specified one unless the port leaves its eleven characters |
| `SipSpelling.ViaSpelled` | src/abstraction/sip_header.cc:719-794 | a legal Via means the same however many blanks stand around its pieces, with a port and without |
| `SipSpelling.AddressSpelled` | src/abstraction/sip_header.cc:228-284 | a legal address means the same however many blanks stand around its pieces, in brackets and without |
| `SipSpelling.CSeqSpelled` | src/abstraction/sip_header.cc:514-533 | a sequence number and a method mean the same with any blanks around them and at least one between |
| `SipSpelling.OtherViaParam` | src/abstraction/sip_header.cc:775-791 | a parameter of a Via that the parser does not know is passed over |
| `SipSpelling.LaterBranch` | src/abstraction/sip_header.cc:775-791 | of two branches the later one counts |
| `SipSpelling.OtherParam` | src/abstraction/sip_header.cc:271-281 | a parameter of an address that the parser does not know is passed over |
| `SipSpelling.NothingEmpty` | src/abstraction/sip_header.cc:228-794 | what is parsed at all has an address, or a protocol, a version and a host |
| `SipSpelling.EmptyParam` | src/abstraction/sip_header.cc:271-791 | a known parameter without a value spoils the header |
| `SipSpelling.OtherProtocol` | src/abstraction/sip_header.cc:742-749 | so does any protocol but UDP and TCP |
| `SipSpelling.OtherMethod` | src/abstraction/sip_header.cc:514-533 | and any method that is not known |

## Left out

- Assembly, interrupts and drivers: an operation between `lock` and `unlock` is one step, and a context is
  the name of the thread whose computation it restores.
- Several CPUs in the kernel: `smp` is false in `include/traits.h:81`; the spin lock is modelled by itself.
- Scheduling criteria other than static priority, and non-preemptive scheduling.
- Threads.KernelObject.Insert: asks for a link in no list, which the source does not check; that every
  operation meets this when its condition holds is `ThreadLinks.LinksSafe`.
- Threads.KernelObject.LineUp: asks for the same.
- Threads.KernelObject.SetPriority: asks that the link is in no wait queue, for the same reason.
- Threads.KernelObject.Resume: asks that the link of a suspended thread is in no list.
- Threads.KernelObject.Exit: asks that the link of the joiner is in no list.
- Threads.KernelObject.Destroy: asks for a state in which the deletion keeps the invariant, and takes for granted
  that nobody keeps a pointer to another object at the same address in `_waiting` or `_joining`.
- ThreadLinks.ThreadLists.Insert: asks for a link in no list, which the source does not check; that every
  operation meets this is `ThreadLinks.LinksSafe`.
- ThreadLinks.ThreadLists.LineUp: asks for the same.
- ThreadLinks.ThreadLists.SetRank: asks for the same.
- `Condition`, whose three calls are the bare `sleep`, `wakeup` and `wakeup_all`.
- `idle`, which restarts the machine when the last thread has exited.
- The heap's memory itself: size words are a map, and links of free blocks are objects; that a program does
  not write outside its blocks is taken for granted.
- HeapCommon.HeapObject.Alloc: asks for at most 2^32-21 bytes; what larger requests do in 32 bits is
  `HeapLaws.RepresentableIff` and `HeapLaws.OversizedHarms`, on values.
- HeapCommon.HeapObject.Free: asks for an address that was handed out and not returned yet; the source does
  not check it.
- HeapCommon.HeapObject.Give: asks for memory the heap does not have yet; the source does not check that a part
  of a block handed out is not given back by itself.
- `calloc`, whose arguments to `memset` are swapped, and the `out_of_memory` panic, modelled as a null result.
- Alarm periods in microseconds: the model counts ticks, below 2^31, as `ticks` computes them.
- AlarmClock.AlarmQueue.Handler: names the alarm whose handler runs next; the handler itself runs afterwards
  and is the application's.
- `Alarm::delay`, which is a semaphore and an alarm, and which an alarm that fires at once lets pass.
- TCP liveness: there is no retransmission, acknowledgements are one byte short and a FIN takes no sequence
  number. Third parties on the network, ports and forged segments are not modelled.
- TcpSafety.StreamSafety: each side opens once.
- TcpSocket.SocketObject.OnSynSent: its branch to SYN_RCVD after an acknowledgement cannot be reached, which is
  asserted instead.
- The UDP checksum, switched off and computed over the size of a pointer.
- Cmac.Mac.Unpack: a frame of one byte, whose checksum is read in front of the buffer, and what an overrun
  does.
- FrameErrors.BurstDroppedIff: counts the bits of a byte from the highest one, in the order of the polynomial;
  the order in which a radio sends them is not part of this model.
- Beacon and acknowledgement frames, the neighbour table, channel access and duty cycles of CMAC.
- `strncpy`, `memcmp`, `memcpy`, `memset`: loops over words of the kinds modelled in `strcpy`, `strncmp` and
  `memchr`. `strcat` and `strrchr`, which read single bytes.
- Strings.Strcpy: the destination is not inside the string at a higher address.
- Strings.Strcmp: both strings end within a memory that is a whole number of words.
- Signed sums that leave 32 bits wrap, as they do on the machine; C++ leaves them undefined.
- The other SIP headers, and the first lines and bodies of messages, with the buffers they go to. What happens
  once a buffer has been left. Folding of lines by `removeLWS`.
- SipHeaders.AddressRoundTripIff: displays and tags with open brackets or quotes, or with semicolons outside
  them, are not legal and not considered; neither are addresses with a closing bracket.
- SipHeaders.BareIff: addresses with a quote left open, or a semicolon outside quotes, where the parameters
  begin, are not considered.
- SipHeaders.ViaRoundTripIff: names, versions and hosts with separators of the line other than a colon are not
  legal and not considered. A comma in a branch, at which a line of several values is cut.
- SIP dialogs, message matching and object lifetimes. A message of a transaction is a kind and a code, and
  `sendAck` always finds its headers.
- SipLaws.ClientTerminates: alarms fire no later than a given bound, which `AlarmLaws.ExactLateness` measures.
- SpinLock.MutualExclusion: a CPU releases only what it has acquired.
- SpinLock.Spin.Acquire: asks for a lock that no other CPU holds, on which the source spins; the spinning is in
  the interleaved steps.
- The encryption, Python and C tools, IEEE 1451, DHCP, ARP and routing, ELF and SREC loading.
