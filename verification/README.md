# A verified model of the Xinu kernel

Xinu runs every system call with interrupts disabled. Between two context switches a call is
one atomic step; at a context switch the rest of the call is left on the caller's stack and runs
much later, after any number of other processes have had the processor. This project models the
process table, the queue table, the scheduler, semaphores, one-slot messages, the delta-list clock
and the message ports as one state machine with such saved remainders, and the heap, the ring
mailboxes, the buffer pools and the calendar arithmetic as components of their own.

There are two layers for most of the kernel.

* What the calls mean is a set of functions on values: `KernelState` (processes, lists,
  semaphores, clock), `PortState` (ports), `FreeLists` (the heap). `Machine` makes them one
  transition system with events, guards and the invariant `Inv`, which every enabled step keeps.
* How the program does it is imperative: the classes `QueueTable`, `Kernel`, `PortSystem`, `Heap`,
  `Mailbox` and `BufferTable` update arrays, links and counters in place, with the loops of the
  original, and every method is proved to do exactly what the functions say.

`ProcessSteps` and `PortSteps` then say, for every event in every state that satisfies the invariant,
what becomes of every process, of every saved remainder and of every port, in terms of the tables
before the step and not of those functions.

The theorems about runs (`PortTheorems`, `LimboTheorems`, `SchedulerTheorems`, `SemaphoreTheorems`,
`MessageTheorems`, `ClockTheorems`, `HeapTheorems`) quantify over every sequence of enabled events
from the state that `sysinit` leaves, with arbitrary table sizes. `Scenarios` holds two concrete runs
from such a state, event by event, that reach what the theorems say can go wrong with a port.

The ring mailboxes and the buffer pools are protocols of their own, with a class each whose methods
are proved to take the protocol's steps.

## How the model is set up

* A call that may switch context in the middle is split there. `Cont` names the remainder:
  `InSend(port, seqno, item)`, `InRecv(port, seqno)`, `InClear(port, newstate, phase)`,
  `InReceive`, `InRecvTime` and `InKill(victim)`; `Continue` runs the remainder of the current
  process. A context switch is a change of `curr`.
* A granted process is one inside `ptsend` or `ptrecv` that is no longer on the semaphore's queue;
  it may be ready, current or suspended, or have been killed. `History` counts the killed ones and
  records the messages accepted and received since the port's sequence number last changed. It
  and the note of who created each semaphore exist only in the model.
* Guards on events (`Enabled`): while rescheduling is deferred, only calls that neither block nor
  switch in the middle are made; the null process makes no blocking call; semaphores that a port
  created are used by the port code alone.
* Semaphore j waits on the j-th list of the queue table, then come the ready list and the sleep
  queue, as `sysinit` and `clkinit` allocate them.
* The headers are not part of this model. It takes from them: `queuehead(q)` is q, `queuetail(q)` is q+1,
  `firstid(q)` is the head's next link, `firstkey(q)` the key stored there, `isempty(q)` is
  `firstid(q) >= NPROC`; `isbadpid` rejects identifiers out of range and free entries (the second
  part is checked by `Kernel`, the first by `QueueTable`); `roundmb` rounds up to 8; `freestk(p, n)`
  frees from `p - roundmb(n) + 4`; `isleap` is divisibility by four; `EMPTY` and `SYSERR` are -1,
  `OK` is 1, `TIMEOUT` is -3, `MAXKEY` and `MINKEY` are the ends of the 32-bit range. `NPROC`,
  `NSEM`, `NPORTS`, `QUANTUM`, `MAX_MSGS`, `NBPOOLS` and the number of nodes are arbitrary.
* Integers are unbounded.

## Where the code does not do what is expected of it

* `recvtime(0)` without a message stops the clock for everybody on the sleep queue, because the
  tick wakes sleepers only when the head's key reaches exactly zero: whatever calls are interleaved, no
  tick wakes anybody while that caller stays on the queue (`ClockTheorems.ZeroWaitStopsTheClock`);
  the queue keeps ticking exactly if the delay is at least 1 (`ClockSteps.StepTimes`).
* A port stays in limbo for ever exactly if a process was killed while it was clearing that port
  (`LimboTheorems.StrandedExactly`, `LimboTheorems.LimboForever`); a waiting sender with a higher
  priority can do that, since it runs between the two semaphores (`Scenarios.PortStranded`).
* A process killed after a semaphore has let it through takes its token with it, so a port's capacity
  can shrink and messages can be left over (`Scenarios.MessageLeftOver`), and only by such a kill
  (`PortTheorems.LossStep`, `PortTheorems.TokenConservation`).
* `ptcount` leaves out the messages that are promised to receivers on their way or were lost with such
  receivers: it returns what its comment says exactly if receivers are blocked or there are no such
  messages (`PortTheorems.CountAsDescribed`); `Scenarios.PromisedNotCounted` is a state in which it
  does not.
* `freemem` accepts a region that runs past the end of the heap, one that starts at the end included
  (`HeapTheorems.FreesPastTheEnd`); what is free stays inside the heap exactly if the region does
  (`HeapTheorems.RunsPastTheEnd`).
* `receiveMsgs` wakes after any send and then copies as many messages as it was asked for. It reads only
  written slots, whatever the senders do, exactly if at the call it asks for no more messages than are
  there, or for one more and the ring has room for it (`Mailboxes.AskExact`).
* With daylight saving time always on, `ascdate` is wrong in the last hour of 28 February of a leap
  year and in the last hour of every year, and only then (`Calendar.HourLaterExact`,
  `Calendar.AlwaysOnFails`). The comment in the code says 2:00 for the end of daylight saving time;
  the code switches at 1:00 standard time, which is the same moment, and that is what is proved.
* The four-year leap rule is right up to 2099 and no further (`Calendar.LeapRule`).

## Model

| member | source | states |
|---|---|---|
| `QueueTables.QueueTable.NewQueue` | newqueue.c:9-30 | a fresh pair of sentinels is an empty list, no other list changes, and a full table gives SYSERR |
| `QueueTables.QueueTable.Enqueue` | queue.c:11-30 | the list grows at its end by the process, next and prev links stay mutually inverse, all other lists are unchanged; a bad queue or process gives SYSERR |
| `QueueTables.QueueTable.Dequeue` | queue.c:36-52 | the first process leaves, its links are cleared, all other lists are unchanged; an empty list gives EMPTY |
| `QueueTables.QueueTable.GetItem` | getitem.c:47-58 | the process leaves whichever list holds it, at whatever place |
| `QueueTables.QueueTable.GetFirst` | getitem.c:9-22 | the first entry leaves, or EMPTY |
| `QueueTables.QueueTable.GetLast` | getitem.c:28-41 | the last entry leaves, or EMPTY |
| `QueueTables.QueueTable.ScanInsert` | insert.c:22-25 | the scan stops inside the list or at its tail, because the tail's key is MINKEY |
| `QueueTables.QueueTable.Insert` | insert.c:18-35 | the process goes behind every entry whose key is at least as large and before the first smaller one; no other list and no other key changes |
| `QueueTables.InsertPosUnique` | insert.c:22-25 | that place is the only one behind all larger or equal keys and before a smaller one |
| `QueueTables.QueueTable.InsertD` | insertd.c:18-41 | the delta list and the keys become those of the sequence form: the rest of the delay for the new entry, taken from its successor |
| `KernelTables.Kernel.constructor` | initialize.c:170-216 | the tables after sysinit are `Booted`: the null process current, all else free, all lists empty |
| `KernelTables.Kernel.Resched` | resched.c:11-49 | an attempt is only recorded while deferred; otherwise the current process stays if its priority is above the first ready key, else it rejoins the ready list and the first ready process becomes current |
| `KernelTables.Kernel.ReschedCntl` | resched.c:55-80 | nested deferral; the outermost stop makes up for a recorded attempt |
| `KernelTables.Kernel.ReadyUp` | ready.c:11-29 | the process is ready, on the ready list by its priority, and rescheduling is attempted |
| `KernelTables.Kernel.Wait` | wait.c:17-38 | the count goes down; below zero the caller is queued on the semaphore, its state and prsem say so, and the processor is given up |
| `KernelTables.Kernel.Signal` | signal.c:17-30 | the count goes up and, if it was negative, the longest waiting process is made ready |
| `KernelTables.Kernel.Signaln` | signaln.c:17-36 | n signals under one deferral, whatever becomes ready on the way |
| `KernelTables.Kernel.SemReset` | semreset.c:19-34 | all waiting processes are released under deferral and the count is set |
| `KernelTables.Kernel.SemDelete` | semdelete.c:16-35 | the entry is freed and the loop driven by the count releases the waiting processes |
| `KernelTables.Kernel.SemCreate` | semcreate.c:11-50 | the first unused entry in cyclic order gets the count; a negative count or a full table gives SYSERR |
| `KernelTables.Kernel.Suspend` | suspend.c:17-40 | only a ready or current process is suspended; it leaves the ready list or gives up the processor |
| `KernelTables.Kernel.Resume` | resume.c:17-30 | only a suspended process is readied |
| `KernelTables.Kernel.Create` | create.c:29-53 | a free entry in cyclic order becomes a suspended process; a bad priority is noticed after the search has moved on |
| `KernelTables.Kernel.Kill` | kill.c:17-28 | the call up to the notice to the parent, which may switch context |
| `KernelTables.Kernel.EndKill` | kill.c:34-58 | the victim leaves whatever structure holds it when the killer runs again, and a waiting victim gives its place on the semaphore back |
| `KernelTables.Kernel.SleepMs` | sleep.c:26-53 | a positive delay puts the caller on the delta list, zero only reschedules, a negative one is refused |
| `KernelTables.Kernel.SleepSecs` | sleep.c:11-20 | seconds between 0 and MAXSECONDS are slept in milliseconds |
| `KernelTables.Kernel.Unsleep` | unsleep.c:22-46 | a sleeper leaves the delta list and its successor takes its delay over |
| `KernelTables.Kernel.Wakeup` | wakeup.c:9-20 | all sleepers at the head with no time left are made ready under one deferral |
| `KernelTables.Kernel.ClkHandler` | clkhandler.c:27-61 | one tick: counters, the head's key, the expired sleepers, the time slice |
| `KernelTables.Kernel.Send` | send.c:17-41 | a message goes into an empty slot and a waiting receiver is made ready; a full slot refuses |
| `KernelTables.Kernel.Receive` | receive.c:15-20 | without a message the caller waits |
| `KernelTables.Kernel.RecvTime` | recvtime.c:17-32 | without a message the caller waits for a bounded time |
| `KernelTables.Kernel.EndReceive` | recvtime.c:34-43 | the message, or TIMEOUT after a timed wait without one |
| `PortTables.PortSystem.PtInit` | ptinit.c:22-44 | all ports are free and the free list is exactly the maxmsgs nodes, linked in order |
| `PortTables.PortSystem.PtCreate` | ptcreate.c:18-45 | the first free entry in cyclic order becomes an open port of a new epoch, with its semaphores as far as semcreate gives any |
| `PortTables.PortSystem.PtSend` | ptsend.c:20-35 | a call on an open port waits for space and remembers the sequence number; any other call returns SYSERR |
| `PortTables.PortSystem.EndSend` | ptsend.c:30-58 | after the wait: SYSERR for a stale epoch, panic without a node, otherwise the node goes from the free list to the end of the port's list and the receivers are signalled |
| `PortTables.PortSystem.PtRecv` | ptrecv.c:19-33 | a call on an open port waits for a message and remembers the sequence number |
| `PortTables.PortSystem.EndRecv` | ptrecv.c:29-47 | after the wait: SYSERR for a stale epoch, otherwise the head's message is returned, its node goes to the free list and the senders are signalled |
| `PortTables.PortSystem.PtReset` | ptreset.c:18-26 | an open port is cleared and will be open again |
| `PortTables.PortSystem.PtDelete` | ptdelete.c:18-26 | an open port is cleared and will be free, and the next search starts there |
| `PortTables.PortSystem.FlushPort` | ptclear.c:21-41 | limbo, the next sequence number, every message handed to the disposal function in order, and the whole list spliced in front of the free list |
| `PortTables.PortSystem.EndClear` | ptclear.c:43-49 | the second semaphore, which may switch context, and then the new state |
| `PortTables.PortSystem.PtCount` | ptcount.c:23-43 | the receivers' count, and the blocked senders when it is not negative |
| `PortTables.PortSystem.Continue` | resched.c:38-48 | a process that is switched to runs exactly the remainder of its call |
| `Machine.StepInv` | resched.c:11-49 | the invariant of the whole machine, ports included, survives every step and every context switch in the middle of a call |
| `Machine.RunInv` | resched.c:38-48 | and therefore every run |
| `KernelInvariants.ReschedRest` | resched.c:18-48 | rescheduling leaves the highest priority process current, or the debt recorded while deferred; the ready list it dequeues from is never empty |
| `KernelInvariants.SemDeleteRest` | semdelete.c:27-33 | the count-driven loop empties the queue and leaves the entry unused |
| `KernelInvariants.ReapRest` | kill.c:34-55 | from whatever state the victim is in, states, lists and counts agree again when it is gone |
| `SchedulerTheorems.EveryStateSound` | kill.c:34-55 | in every reachable state process states agree with list membership, exactly one process is current and no ready one outranks it unless a reschedule is owed, and counts agree with queues |
| `SchedulerTheorems.SwitchNotDeferred` | resched.c:18-21 | the current process changes only while nothing is deferred |
| `SchedulerTheorems.RoundStep` | resched.c:27-43 | a reschedule moves the current process behind its equals and before all others |
| `SchedulerTheorems.EqualsRotate` | insert.c:22-34 | k equal processes take turns; after k reschedules the current process and the ready list are what they were |
| `SchedulerTheorems.SliceEnds` | clkhandler.c:55-61 | the tick that ends the slice passes the processor to the next of the equals and starts a full slice |
| `SchedulerTheorems.SliceGoesOn` | clkhandler.c:55-61 | any other tick that wakes nobody only shortens the slice; while deferred the end of the slice is recorded as an attempt |
| `SchedulerTheorems.SwitchRefills` | resched.c:38-46 | whoever gets the processor by a call starts with a full time slice |
| `SchedulerTheorems.YieldPasses` | yield.c:13-16 | yield, and sleeping for no time, pass the processor to the next of the equals |
| `SchedulerTheorems.DeferralEnds` | resched.c:69-79 | the outermost stop makes up for an attempt, and moves nobody if there was none |
| `SchedulerTheorems.DeferralNests` | resched.c:60-79 | inner starts and stops only count; the outermost start forgets old attempts |
| `SchedulerTheorems.EqualJoins` | ready.c:22-27 | a process that is readied among its equals goes last of them, and the processor is passed on |
| `ProcessSteps.StepFaces` | ready.c:18-27 | after every step every process has exactly the state (the current one counted among the ready), priority, semaphore, message slot and parent that the step gives it; whom the step does not concern it does not change |
| `ProcessSteps.ReleasedRuns` | semdelete.c:27-33 | whoever leaves the queue of a semaphore, a port's included, is able to run, unless it leaves it by being killed |
| `ProcessSteps.SendDelivers` | send.c:23-38 | a message to a live process with an empty slot is in the slot, and a process that waits for one is able to run and off the sleep queue |
| `ProcessSteps.NoticeDelivered` | kill.c:28 | the same for the notice to the parent of a process that is killed |
| `ProcessSteps.KilledGone` | kill.c:34-55 | the victim, whatever it was doing, is free and on no list; every list keeps its order without it, and all other processes are as they were |
| `Searches.NewSemFirst` | semcreate.c:34-50 | newsem takes the first unused entry in cyclic order, and fails exactly if there is none |
| `Searches.NewPidFirst` | create.c:33-38 | newpid takes the first free entry in cyclic order, and fails exactly if there is none |
| `SemaphoreTheorems.SemaphoreStep` | signal.c:26-28 | seen through the whole machine, a wait takes one off the count or joins the end of the queue, signals add and release from the front, a reset or deletion empties the queue, a waiter that is killed gives its place back, and no other call or context switch touches a semaphore |
| `SemaphoreTheorems.NewSemaphoreStep` | semcreate.c:20-27 | that entry gets the count and no other changes; a negative count or a full table changes nothing |
| `SemaphoreTheorems.SemaphoreRun` | signaln.c:28-34 | over a run the count is the start plus signals and dead waiters less waits; those who still wait are in the order in which they came, and the last to have come unless one of them died |
| `SemaphoreTheorems.GrantsBounded` | kill.c:45-50 | waits that were let through never exceed the initial count plus the signals, whoever is killed, and equal it while somebody waits |
| `MessageTheorems.MessageStep` | send.c:23-38 | a message slot changes only by a delivery into an empty slot or by its owner taking the message |
| `MessageTheorems.ReceiveFindsMessage` | receive.c:16-24 | a process that comes back from the wait of receive finds a message and returns it, over any interleaving |
| `PortSteps.CreatePortExact` | ptcreate.c:24-45 | ptcreate answers the first free entry in cyclic order, which it opens with a new epoch, room for count messages and the next unused semaphores; it answers SYSERR exactly if no entry is free; no other entry changes |
| `PortSteps.StepConts` | ptrecv.c:19-47 | what every call answers or leaves to be done when it is resumed, and that nobody else's remainder changes |
| `PortSteps.RefusedChangesNothing` | suspend.c:17-29 | a call whose arguments do not fit, on any table, changes nothing but its answer |
| `PortSteps.EntryStep` | ptclear.c:21-48 | how every port entry changes: limbo at the end of an epoch, then the state asked for, and one node at an end of its list when a message passes |
| `PortSteps.NodeStep` | ptrecv.c:37-45 | which node a send takes and writes, where a receive and a reset put theirs |
| `PortSteps.DeletedNext` | ptdelete.c:23-24 | a deleted port is free and the next search starts with it |
| `PortSteps.DisposedStep` | ptclear.c:26-32 | the disposal function gets exactly the messages accepted and not received, in order, when their epoch ends |
| `PortSteps.StepCounters` | clkhandler.c:27-33 | only ticks move the clock, only create and kill the number of processes, and only the last kill and the panic stop the machine |
| `PortSteps.SecondsAreTicks` | clkhandler.c:33-40 | the seconds are the thousands of the ticks |
| `PortTheorems.TokenConservation` | ptsend.c:29-56 | free slots, senders let through and messages add up to the capacity, and counted messages and receivers let through to the messages, in every run in which nobody is killed between semaphore and port; in any run neither sum is larger |
| `PortTheorems.TokensConserved` | kill.c:34-55 | with the killed processes counted both equations are exact in every reachable state |
| `PortTheorems.NothingLostRun` | kill.c:34-55 | other kills, those of waiting processes included, lose no token |
| `PortTheorems.LossStep` | kill.c:34-55 | a token is lost exactly by the end of a kill whose victim a semaphore of the port had let through; a new epoch has lost none |
| `PortTheorems.NodesConserved` | ptinit.c:37-43 | free list and port lists are disjoint, without repetition, and together hold all nodes |
| `PortTheorems.NodeAvailable` | ptsend.c:36-45 | a sender past the epoch check finds a node if the open ports' capacities fit into the nodes |
| `PortTheorems.NeverStops` | ptsend.c:36-38 | then no run reaches the panic, nor a receiver an empty list |
| `Machine.HeadExists` | ptrecv.c:35-42 | a receiver past the epoch check finds a message, in whatever order those let through go on |
| `PortTheorems.SeqnoRun` | ptclear.c:21-23 | sequence numbers never go back, and every reset or deletion of an open port moves them on |
| `PortTheorems.EpochIsolation` | ptsend.c:29-35 | a process that entered before a reset or deletion returns SYSERR and changes nothing, even in the middle of the clearing and after the entry has been opened again |
| `PortTheorems.Fifo` | ptsend.c:49-56 | within an epoch the messages received and those that wait are those accepted, in order |
| `PortTheorems.PortStepHistory` | ptrecv.c:37-45 | a step adds at most one message to what was accepted or received, and it is the one sent or returned |
| `PortTheorems.NoStuckPair` | ptsend.c:30-32 | on a settled port with room for a message, senders and receivers never wait at the same time |
| `PortTheorems.BothBlocked` | ptsend.c:30-32 | if they do, processes let through or killed there hold the whole capacity |
| `PortTheorems.CountExact` | ptcount.c:32-41 | ptcount in general: messages and blocked senders less what is promised, or minus the blocked receivers |
| `PortTheorems.CountAsDescribed` | ptcount.c:32-41 | it is what its description promises exactly if receivers are blocked or no message is promised to a receiver on its way or to a dead one |
| `Scenarios.PromisedNotCounted` | ptcount.c:32-41 | a reachable state in which it is not |
| `Scenarios.MessageLeftOver` | kill.c:34-55 | a run in which a receiver let through is killed and its message stays |
| `LimboTheorems.StrandedByKill` | kill.c:34-55 | a step leaves a port in limbo without a clearing process exactly if it ends a kill of that process |
| `LimboTheorems.StrandedExactly` | ptclear.c:40-48 | and so over every run |
| `LimboTheorems.LimboHasClearer` | ptclear.c:21-48 | in every reachable state a port in limbo has its clearing process exactly if no clearing process of it was killed |
| `LimboTheorems.LimboForever` | ptclear.c:40-48 | a port whose clearing process is gone never becomes usable again |
| `Scenarios.PortStranded` | ptclear.c:40-43 | a run from the start in which a released sender kills the process that is resetting the port |
| `DeltaLists.InsertDelay` | insertd.c:22-39 | the new entry has exactly the requested ticks left and every other as many as before |
| `DeltaLists.RemoveDelay` | unsleep.c:37-44 | removing an entry leaves the remaining ticks of all others |
| `DeltaLists.InsertBehindEquals` | insertd.c:24-28 | the new entry goes behind all that are due no later and before all that are due later |
| `ClockSteps.StepTimes` | clkhandler.c:42-53 | a tick takes one from every sleeper and readies exactly those that had one left; a sleep call gives its caller the delay asked for; every other step leaves all remaining times; the queue ticks on exactly if the delay is not zero |
| `ClockSteps.LeavesEarly` | send.c:33-38 | apart from the tick only a message ends a timed receive and only kill a sleep |
| `ClockTheorems.AsleepRun` | clkhandler.c:44-53 | while a process sleeps its remaining time is what it was less the ticks since, and never used up |
| `ClockTheorems.WokenByTheTick` | wakeup.c:13-18 | a process that asks for d ticks is readied by the d-th tick and by no earlier one, over any interleaving |
| `ClockTheorems.ZeroWaitStopsTheClock` | recvtime.c:25-32 | after recvtime(0) without a message no tick wakes anybody while the caller sleeps, whatever calls are interleaved |
| `ClockTheorems.StuckStep` | clkhandler.c:43-53 | a first sleeper without time left stays first until it leaves, and no tick takes anybody off the queue |
| `Heaps.Heap.constructor` | meminit.c:23-28 | one block spans the heap |
| `Heaps.Heap.GetMem` | getmem.c:19-48 | the first block that is long enough is unlinked or loses its low end, headers and length included; SYSERR leaves memory as it was |
| `Heaps.Heap.GetStk` | getstk.c:20-52 | the last block that is long enough is unlinked or loses its top, and the address of its highest word is returned |
| `Heaps.Heap.FreeMem` | freemem.c:19-66 | a region that passes the test is linked in and joined with both neighbours that it touches; a refusal leaves memory as it was |
| `Heaps.Heap.FreeStk` | kill.c:32 | a stack given back by its highest word is the region that getstk took |
| `FreeLists.CanonicalUnique` | freemem.c:48-64 | two coalesced lists of the same free bytes are the same list |
| `FreeLists.LowestRun` | getmem.c:26-48 | getmem fails exactly if no run of that many free bytes exists, and otherwise takes the lowest |
| `FreeLists.HighestRun` | getstk.c:32-51 | getstk fails in the same cases and otherwise takes the run with the highest end |
| `FreeLists.OverlapExact` | freemem.c:39-46 | looking at the two neighbours is enough: the region is refused exactly if some byte of it is free |
| `FreeLists.ReleaseCovers` | freemem.c:48-64 | exactly the bytes of the region become free |
| `FreeLists.ReleaseCanonical` | freemem.c:48-64 | blocks stay in address order, disjoint and never adjacent |
| `FreeLists.CutCovers` | getmem.c:28-43 | exactly the bytes of the allocated region stop being free |
| `HeapTheorems.HeapRun` | freemem.c:28-66 | over every run of allocations and releases each byte of the heap is free or in exactly one region handed out |
| `HeapTheorems.EverythingFreed` | meminit.c:23-28 | when everything is given back, in any order, the list is again the one block of meminit |
| `HeapTheorems.NothingTwice` | getmem.c:26-48 | an allocation never gets a byte that somebody holds, and free and held bytes add up to the heap |
| `HeapTheorems.HolderNotRefused` | freemem.c:39-46 | who holds a region can always give it back |
| `HeapTheorems.AllocateThenFree` | freemem.c:28-66 | an allocation given back at once leaves the very list it found |
| `HeapTheorems.RunsPastTheEnd` | freemem.c:19-24 | what freemem accepts stays inside the heap exactly if the region ends there |
| `HeapTheorems.FreesPastTheEnd` | freemem.c:19-24 | right after meminit a region that starts at the heap's end is accepted |
| `Mailboxes.Mailbox.Put` | newsend.c:25-27 | the message becomes the last one of the ring, and qin stays qout plus count modulo the size |
| `Mailboxes.Mailbox.SendMsg` | newsend.c:19-39 | a message is appended if there is room, otherwise nothing changes; the protocol's step PutOne |
| `Mailboxes.Mailbox.SendMsgs` | newsend.c:51-79 | as many messages as fit are appended in order, and their number returned; the protocol's step PutMany |
| `Mailboxes.Mailbox.SendOneOfMany` | newsend.c:107-121 | one recipient's share of sendnMsg, which is woken even if its ring is full; the protocol's step PutShared |
| `Mailboxes.Mailbox.StartReceive` | newreceive.c:42-50 | the owner waits if there are fewer messages than asked for; the protocol's step Ask |
| `Mailboxes.Mailbox.Copy` | newreceive.c:52-56 | the loop returns the oldest messages in order and leaves a valid ring exactly if there were enough; the protocol's step Resume |
| `Mailboxes.PutContents` | newsend.c:66-70 | a write at qin appends to the contents |
| `Mailboxes.GetContents` | newreceive.c:22-24 | a read at qout removes the oldest message |
| `Mailboxes.BoxStep` | newreceive.c:47-56 | delivered and waiting messages are those accepted, in order; the loop breaks exactly when it resumes with too few |
| `Mailboxes.BoxRunOk` | newreceive.c:18-24 | if every call asks for at most one message more than is there, and for that only with room in the ring, nothing is lost, repeated or read before it was written |
| `Mailboxes.AskExact` | newreceive.c:47-56 | a request is safe against everything the senders may do exactly under that condition |
| `Mailboxes.AskBreaks` | newsend.c:107-121 | any other request is broken by one message of sendnMsg |
| `BufferPools.BufferTable.MkBufPool` | mkbufpool.c:22-54 | the new pool's free list is its buffers in order of address, which is the protocol's step; any failure leaves the pools as they were |
| `BufferPools.BufferTable.StartGet` | getbuf.c:21-30 | a bad pool is refused, otherwise the caller is counted by the pool's semaphore |
| `BufferPools.BufferTable.TakeBuffer` | getbuf.c:31-42 | a caller that the semaphore has let through finds a buffer; the first free one leaves the pool and its header word holds the pool's identifier |
| `BufferPools.BufferTable.FreeBuf` | freebuf.c:19-36 | the buffer goes to the front of the pool that its header names, and for a buffer in use that is the protocol's step with its signal |
| `BufferPools.BufStep` | getbuf.c:30-42 | in every pool the free buffers are those counted, those promised to takers on their way and those left by killed ones, and each buffer is free or bears its pool's identifier |
| `BufferPools.NoPools` | bufinit.c:12-16 | with no pools everything is in order |
| `BufferPools.BufRunOk` | mkbufpool.c:28-54 | and so over every run |
| `BufferPools.TakerFindsBuffer` | getbuf.c:31-35 | a taker that the semaphore has let through never finds an empty list |
| `BufferPools.BuffersGoHome` | freebuf.c:21-36 | a buffer goes back to the pool it came from and no other pool changes |
| `BufferPools.PoolSemaphore` | getbuf.c:30 | the pool's count and queue change as wait and signal change a semaphore |
| `Calendar.AscDate` | ascdate.c:45-219 | the date and time are those whose seconds are the argument, the weekday is that of the day number, and the hour is moved if daylight saving time is on |
| `Calendar.OneDate` | ascdate.c:45-86 | no two dates have the same number of seconds, so the split is the inverse |
| `Calendar.WeekdayClosed` | ascdate.c:96-113 | the closed form for the weekday is 4 plus the days since the epoch modulo 7 |
| `Calendar.Sundays` | ascdate.c:131-158 | the two days computed are the only second Sunday in March and first Sunday in November |
| `Calendar.DaylightInterval` | ascdate.c:160-195 | automatic daylight saving time is on exactly from 2:00 on the one to 1:00 standard time on the other |
| `Calendar.HourLaterExact` | ascdate.c:200-219 | the hour added gives the date 3600 seconds on, except in two hours that are named |
| `Calendar.AutoHourLater` | ascdate.c:200-219 | the automatic rule never meets those two hours |
| `Calendar.AlwaysOnFails` | ascdate.c:200-219 | concrete dates on which the rule that is always on goes wrong |
| `Calendar.LeapRule` | ascdate.c:43-51 | the four-year rule agrees with the calendar exactly up to 2099 |

## Left out

- Device switch calls, console output, interrupt vectors, network time and the assembly routines: input and output, or replaced by the change of `curr` and the saved remainder.
- `chprio`: it changes a priority without moving the process in the ready list, and the scheduling invariant is stated without it.
- `mark.c`, `getprio.c`, `gettime.c`, `getpid.c` and similar one-line calls: they would only add easy members.
- KernelTables.Kernel.Kill: closing descriptors and `xdone` are not modelled beyond the machine having halted, and no claim is made that `prcount` is exact when kills interleave.
- KernelTables.Kernel.Create: the stack and its contents are not modelled; whether `getstk` found one is an argument, and the stacks of processes are not connected with the heap model.
- Deferral: calls that may block or switch in the middle, `kill` among them, are not made while rescheduling is deferred, so that state is not modelled.
- Disposal functions passed to `ptreset` and `ptdelete` do not block and do not call the kernel; that they get every message in order is part of `PortTables.PortSystem.FlushPort`.
- Mailboxes.Mailbox.SendMsg: the owner's state is one flag beside the ring and not an entry of the process table, so the check of its identifier is not modelled, nor is mixing `send` and `sendMsg` for one receiver.
- Mailboxes.Mailbox.SendMsgs: as for `SendMsg`, one flag stands for the owner's state.
- Mailboxes.Mailbox.StartReceive: blocking is that flag, without the scheduler.
- Mailboxes.Mailbox.SendOneOfMany: sendnMsg's check of all identifiers beforehand and its loop under deferral are not modelled; every recipient has a ring of its own.
- Heaps.Heap.FreeMem: 32-bit address overflow is not modelled, and memory is a map from addresses to headers.
- BufferPools.BufferTable.MkBufPool: the results of `getmem` and `semcreate` are arguments, and users do not overwrite header words.
- BufferPools.BufferTable.TakeBuffer: it covers the part of getbuf after wait.
- BufferPools.BufferTable.FreeBuf: the signal is a step of the protocol's semaphore, which is that of the kernel by `BufferPools.PoolSemaphore`; it is not a call of `Kernel.Signal`.
- The protocols of mailboxes and buffer pools are not events of `Machine`, as those of the ports are: their classes are tied to the protocols, and their processes are flags and numbers.
- Calendar.AscDate: the text and the zone names are not modelled, and the weekday is that of the date before the hour is added.
- Counter wrap-around of sequence numbers, semaphore counts, clock counters and 32-bit keys.
