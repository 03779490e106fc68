# FerretOS kernel: a verified model

FerretOS is a single-hart RISC-V microkernel. Tasks run under a preemptive
scheduler with capability-aware priority inheritance (CA-PIP), exchange messages
over eight bounded channels through system calls, and are confined by physical
memory protection (PMP).

The project models the kernel in two layers.

* **A state machine on values.** `Scheduler`, `Kernel` and `Runs` define the
  scheduler, the system calls, the trap entry and exit, boot, and runs of events.
  One event is one trap, or any amount of work by the running task. The
  invariant, and everything that is said about whole runs, is proved here.
* **The imperative code.** Classes with the source's fields and loops:
  `ReadyQueue.PriorityQueue`, `Ccg.CapabilityContentionGraph`, the breadth-first
  search in `Mip`, `Channels.Channel`, the boot detectors, `Pmp.PmpUnit`,
  `Clint.Timer`, `SchedulerImpl.SchedulerState` and `KernelImpl.KernelState`.
  Each method is proved against a function of the old state. At the top,
  `KernelImpl.KernelState.Start` ends in the state machine's boot state and
  `KernelImpl.KernelState.Trap` is exactly one step of it. Both promise that the
  state is then reachable, so the results about reachable states and runs are
  results about this code.

The pop of the ready queue is a choice the state machine leaves open among the
legal ones (`Scheduler.Legal`); `hint` selects it, and the imperative layer
supplies the slot its heap pops.

## Files

| file | content |
|---|---|
| Words, Tasks | machine words, descriptors, the registry |
| ReadyQueue, StableList | the heap, and its refinement of a stable priority list |
| Graph, Ccg, Mip | reachability, the contention graph and its cycle detector, inherited priorities |
| Channels, Detectors | messages and ring buffers, the boot-time conflict scans |
| Pmp, Clint | protection registers, the timer |
| Scheduler, Kernel, Invariant, Runs | the state machine, its invariant, boot and runs |
| CaPip, Ipc, Effects, Restart, SleepExact, RoundRobin, Ages, Switching, Quantum, Transfers, Refusals, Delivery, Privilege, Isolation | results over reachable states and runs |
| SchedulerImpl, KernelImpl | the imperative scheduler and trap path |

A contract that says `P(x) == true` says `P(x)`; the form keeps the verifier from
taking the definition of `P` apart. A predicate whose body is a `match` with a
single case is written that way for the same reason.

## Hypotheses

* **MIP table.** The table `init` copies is computed by a host-side generator,
  `kernel/build/ccg_gen.rs`, which is not part of this model. `Mip.MipTable` states what is
  assumed of it: exact for tasks that hold something, zero allowed for tasks that
  hold nothing (kernel/src/boot.rs:96-97). `Mip.ComputeAndStore` shows that the
  kernel's own search establishes it.
* **MIP includes the source.** The code starts the maximum at the task's own
  priority (kernel/src/scheduler/mip.rs:34); docs/ccg_algorithm.md:67 excludes it.
  The model follows the code.
* **Sequence window.** The queue's 32-bit sequence numbers order two entries by
  age if and only if the number of insertions between them, modulo 2^32, is
  above 0 and below 2^31 (`ReadyQueue.OutranksExactly`). The comment at
  kernel/src/scheduler/queue.rs:22-24 derives this from there being few live
  entries, which is not enough: `StableList.StarvedIsServedFirst` gives the history
  in which, with two live entries, the older one is overtaken, and when exactly that happens.
  The model carries a flag `fifo` that says the window has held so far between
  live entries of equal priority. Order by priority never needs it; order by
  age, and so the bounded wait, does. The flag is true at least until 2^31
  insertions have been made, which takes more than 126 million traps
  (`Ages.EarlyAgesAreSound`, `Ages.ShortRunsAreSound`).
* **Idle task.** It is registered last and makes no system calls
  (kernel/src/boot.rs:115-120, kernel/src/demo/mod.rs:73-78).
* **`ecall` instructions** sit at fixed addresses in read-only flash: a task whose
  program counter is at one does nothing but trap.
* **Arithmetic.** Tick counts and sequence numbers wrap at 2^32.
* **Layout.** Saved frames are kept apart from the 2^32 bytes of memory. That
  regions, stacks and kernel stacks do not overlap, and that regions are
  word aligned, is `Isolation.LayoutOk`; only the results that need it assume it.
* **PMP.** The build with the `pmp` feature. Entries 4 to 15 are off, as reset leaves
  them (section 3.4 of the RISC-V Privileged Architecture): `configure_pmp` clears
  `pmpcfg0` only.
* **Machine-mode tasks** are not confined by PMP. That the one there is, idle, stores only in
  its own stack is part of `Isolation.MayStore`, which goes by the mode in the status
  word the hart runs with, not by the declaration.
* **Status word.** A context's `mstatus` is the word as a trap saves it, so its MPP field
  is the mode the task runs in. A task's own instructions do not change it.
* Capability and endpoint masks are sets of bit positions. The `pmpcfg0` register
  is four bytes, and its bit operations are functions on naturals.

## Model

| member | source | states |
|---|---|---|
| ReadyQueue.OutranksExactly | kernel/src/scheduler/queue.rs:25-31 | between equal priorities the older entry outranks the newer exactly when the number of insertions between them, modulo 2^32, is above 0 and below 2^31; the newer outranks the older exactly when it is above 2^31; at 0 and 2^31 neither does |
| StableList.StarvedIsServedFirst | kernel/src/scheduler/queue.rs:22-24 | a whole history with at most two live entries: an entry starved through n rounds of a higher-priority task and then joined by a peer is popped first, as the stable list does, if and only if n + 1 modulo 2^32 is at most 2^31; otherwise the younger entry overtakes it |
| ReadyQueue.InsertOrders | kernel/src/scheduler/queue.rs:74-81 | insertion gives an ordered heap of the old entries and the new one, or, if the window is lost by it, a heap ordered by priority alone |
| ReadyQueue.PopOrders | kernel/src/scheduler/queue.rs:86-98 | taking the root out leaves an ordered heap of exactly the other entries |
| ReadyQueue.RemoveOrders | kernel/src/scheduler/queue.rs:126-139 | deleting any position and repairing down then up leaves an ordered heap of exactly the other entries |
| ReadyQueue.SiftUpMends | kernel/src/scheduler/queue.rs:141-151 | a heap whose only fault is a too large entry at one position is in order after sifting that position up, with the same entries |
| ReadyQueue.SiftDownMends | kernel/src/scheduler/queue.rs:153-171 | a heap that is wrong only around one position is in order below it after sifting down, and everywhere if the position was right for its parent, with the same entries |
| ReadyQueue.PriorityQueue.SiftUp | kernel/src/scheduler/queue.rs:141-151 | the in-place loop computes the sifted sequence |
| ReadyQueue.PriorityQueue.SiftDown | kernel/src/scheduler/queue.rs:153-171 | the in-place loop computes the sifted sequence |
| ReadyQueue.PriorityQueue.Insert | kernel/src/scheduler/queue.rs:74-81 | adds exactly one entry, numbered after all earlier ones, and keeps the heap valid |
| ReadyQueue.PriorityQueue.PopMax | kernel/src/scheduler/queue.rs:86-98 | `None` only for an empty heap; otherwise removes exactly one entry that is greatest by priority, and by age too while the window holds |
| ReadyQueue.PriorityQueue.PeekMax | kernel/src/scheduler/queue.rs:103-105 | names an entry that is greatest in the heap, and changes nothing |
| ReadyQueue.PriorityQueue.Remove | kernel/src/scheduler/queue.rs:126-139 | deletes the first entry of the task if it has one, nothing otherwise, leaves exactly the sequence the repair of that position gives, and keeps the heap valid |
| StableList.GreatestIsFirstBest | kernel/src/scheduler/queue.rs:86-98 | the greatest entry by priority and age is the first highest-priority entry of the insertion-ordered list |
| StableList.HeapRefinesStableList | kernel/src/scheduler/queue.rs:25-171 | for every history of insert, pop and remove inside the window, the heap gives exactly the answers of a stable priority list |
| StableList.Perform | kernel/src/scheduler/queue.rs:74-139 | on the array, each operation of a history is exactly the step that theorem speaks of, with the same answer |
| Ccg.CapabilityContentionGraph.Build | kernel/src/scheduler/ccg.rs:38-71 | there is an edge exactly from each occupied slot to each other one that requires something it holds exclusively |
| Ccg.CapabilityContentionGraph.DetectCycle | kernel/src/scheduler/ccg.rs:97-148 | terminates within its 16-entry stack; `None` exactly when no slot below the task count reaches a cycle; a returned pair is an edge whose head reaches its tail |
| Ccg.BuildAndDetect | kernel/src/scheduler/ccg.rs:97-148 | build, then detect: on every registry filled from slot 0, `None` if and only if the contention graph is acyclic; a returned pair is an edge of a cycle |
| Ccg.CompleteIffFewHigh | kernel/src/scheduler/ccg.rs:102-105 | starting only from slots below the task count is complete for all declarations in the occupied slots if and only if at most one of these slots is at or above the count |
| Ccg.HighPairMisses | kernel/src/scheduler/ccg.rs:102-105 | with two such slots, the registry in which these two tasks hold what the other needs has a cycle that is missed |
| Mip.ComputeMipValues | kernel/src/scheduler/mip.rs:26-64 | for every occupied slot, cyclic graph or not, exactly the greatest base priority over everything reachable, itself included; 0 for empty slots; the queue never overflows |
| Mip.BuiltIsOccupying | kernel/src/scheduler/mip.rs:52-58 | skipping empty successors follows all edges of a graph built from the same registry |
| Mip.WritePrecomputedMip | kernel/src/scheduler/mod.rs:172-180 | the registered slots get the table's values and nothing else changes |
| Mip.ComputeAndStore | kernel/src/scheduler/mip.rs:26-64 | building the graph, searching it and storing the result establishes `MipTable` and leaves the graph as it was |
| Mip.EffectiveIsMip | kernel/src/memory/task.rs:260-262 | a table padded with 0 for tasks that hold nothing still makes every effective priority the exact inherited priority |
| Mip.EffectiveMonotone | lean/FerretOS/Invariants.lean:64-68 | along every path of contention, not just an edge, the holder's effective priority is at least the waiter's effective priority |
| Tasks.TaskRegistry.RegisterTask | kernel/src/memory/task.rs:295-310 | appends to the registered descriptors, which fill slots from 0, and refuses exactly when all 16 are taken |
| Detectors.CheckCapabilityConflicts | kernel/src/capability/allocator.rs:36-65 | passes if and only if no exclusive bit is claimed by two slots; a reported conflict is a real one |
| Detectors.CheckChannelConflicts | kernel/src/capability/allocator.rs:159-186 | passes if and only if every channel has at most one sender and one receiver and all ids are in range |
| Channels.MessageRoundTrip | kernel/src/ipc/kernel.rs:27-39 | the bytes of a message are the bytes it was made from |
| Channels.FromBytesInjective | kernel/src/ipc/kernel.rs:27-34 | zero padding never makes two different payloads equal |
| Channels.Channel.TrySend | kernel/src/ipc/channel.rs:82-98 | appends at the end of the queued elements, or hands the value back from a full channel that does not change |
| Channels.Channel.TryReceive | kernel/src/ipc/channel.rs:102-117 | takes the oldest queued element and keeps the rest in order; an empty channel does not change |
| Pmp.NapotIsExact | kernel/src/memory/pmp.rs:75-78 | the NAPOT address of a naturally aligned power-of-two region matches exactly that region, by the rule of section 3.7.1 of the RISC-V Privileged Architecture |
| Pmp.NapotExactly | kernel/src/memory/pmp.rs:69-72 | the test accepts exactly the regions of a power-of-two size of at least 8 that start at a multiple of it |
| Pmp.MultipleIsRemainder | kernel/src/memory/pmp.rs:69-72 | being a multiple of the size, as used in the alignment test, is having remainder zero |
| Pmp.EncodingIsExact | kernel/src/memory/pmp.rs:84-93 | every word-aligned region, NAPOT or TOR, is matched exactly; an empty or inverted one matches nothing |
| Pmp.ExactIffAligned | kernel/src/memory/pmp.rs:84-93 | a non-empty region is matched exactly if and only if both bounds are word aligned |
| Pmp.PmpUnit.WriteCfgByte | kernel/src/memory/pmp.rs:210-237 | clear, then set: only the addressed configuration byte changes, through a state in which it is off |
| Pmp.PmpUnit.ConfigurePmp | kernel/src/memory/pmp.rs:111-134 | from any register state, entry 0 covers flash and the others are off |
| Pmp.ConfiguredProtects | kernel/src/memory/pmp.rs:111-134 | after boot, with entries 4 and up off, exactly the flash image is matched by any entry, and user mode can store nowhere |
| Pmp.PmpUnit.ActivateTaskRegion | kernel/src/memory/pmp.rs:140-158 | after each of the eight register writes, entries 1 and 2 match nothing, or are exactly as they end; entries 0 and 3 never change |
| Pmp.ActivatedMatches | kernel/src/memory/pmp.rs:99-104 | after an activation entries 1 and 2 match exactly a user task's region, and nothing for a machine-mode task |
| Pmp.ActivatedWrites | kernel/src/memory/pmp.rs:140-158 | by the lowest matching entry among all, user mode can store exactly in the activated task's region outside flash |
| Pmp.ActivatedAccess | kernel/src/memory/pmp.rs:140-158 | with a task dispatched after boot, user mode reads and executes flash, reads and writes the task's region, and has no access to anything else |
| Clint.AgreeingReads | kernel/src/clint.rs:52-75 | if the two reads of the high word agree, the joined value is the counter's value at the read of the low word |
| Clint.CarryNeedsReread | kernel/src/clint.rs:52-75 | without the second read the result can be 2^32 too small |
| Clint.Timer.GetMtime | kernel/src/clint.rs:52-75 | returns a value the advancing counter had during the call, after finitely many retries |
| Clint.Timer.SetMtimecmp | kernel/src/clint.rs:85-99 | both intermediate compare values are at least 0xFFFF_FFFF_0000_0000 |
| Clint.Timer.TimerIsr | kernel/src/clint.rs:119-135 | counts one tick and arms the next deadline one period on, or one period after the time read if that has passed; over all calls since `start_ticks` the deadline is drift-free if and only if no call overran, and always later than the time read |
| Clint.Timer.StartTicks | kernel/src/clint.rs:140-147 | the first deadline is one period after a time read during the call, and no tick is counted |
| Clint.DriftFree | kernel/src/clint.rs:119-135 | over any times read, the n-th deadline is at least n periods after the first, and exactly n if and only if no handler overran; `TimerIsr` states it of its own calls |
| Scheduler.DispatchKeeps | kernel/src/scheduler/mod.rs:330-343 | a dispatch with the idle task at hand never halts, and leaves the queue consistent and a top-priority task running |
| Scheduler.WakeSleepersKeeps | kernel/src/scheduler/mod.rs:366-382 | waking the due sleepers keeps the queue consistent |
| Scheduler.TickKeeps | kernel/src/scheduler/mod.rs:446-474 | after the preemption check a top-priority task runs, whatever was woken before it |
| Scheduler.YieldKeeps | kernel/src/scheduler/mod.rs:478-482 | yielding keeps the queue consistent and a top-priority task running |
| Scheduler.BlockKeeps | kernel/src/scheduler/mod.rs:504-515 | blocking any task but idle keeps the queue consistent and a top-priority task running |
| Scheduler.WakeBlockedEffect | kernel/src/scheduler/mod.rs:522-536 | with at most one waiter, exactly the task blocked on the reason stops waiting |
| Scheduler.PreemptKeeps | kernel/src/scheduler/mod.rs:543-556 | after the preemption check that follows a wake-up, a top-priority task runs |
| SchedulerImpl.InsertRepresents | kernel/src/scheduler/queue.rs:74-81 | the heap after an insertion stands for the abstract queue with the slot added |
| SchedulerImpl.PopRepresents | kernel/src/scheduler/queue.rs:86-98 | whatever the heap pops is a legal choice for the abstract queue, and the heap stands for the rest |
| SchedulerImpl.RoomToInsert | kernel/src/scheduler/queue.rs:74-81 | a slot that is not queued always finds room: insertion never overflows |
| SchedulerImpl.SchedulerState.PopulateReadyQueue | kernel/src/scheduler/mod.rs:201-215 | refines filling the queue with every ready slot and dispatching |
| SchedulerImpl.SchedulerState.MarkRunning | kernel/src/scheduler/mod.rs:312-323 | refines the state machine's, and reprograms the protection registers for the new task |
| SchedulerImpl.SchedulerState.DispatchNext | kernel/src/scheduler/mod.rs:330-343 | refines the state machine's, with a slot its heap popped |
| SchedulerImpl.SchedulerState.RequeueCurrent | kernel/src/scheduler/mod.rs:346-356 | refines the state machine's |
| SchedulerImpl.SchedulerState.WakeSleepers | kernel/src/scheduler/mod.rs:366-382 | the loop refines waking every due sleeper in slot order |
| SchedulerImpl.SchedulerState.Tick | kernel/src/scheduler/mod.rs:446-474 | refines the state machine's tick, whose switches `Switching.TimerSwitches` characterises, and reports a switch exactly when the running slot changed |
| SchedulerImpl.SchedulerState.YieldCurrent | kernel/src/scheduler/mod.rs:478-482 | refines the state machine's yield, which `Switching.YieldCall` describes |
| SchedulerImpl.SchedulerState.SleepCurrent | kernel/src/scheduler/mod.rs:486-498 | refines the state machine's, with a minimum of one tick |
| SchedulerImpl.SchedulerState.BlockCurrent | kernel/src/scheduler/mod.rs:504-515 | refines the state machine's |
| SchedulerImpl.SchedulerState.WakeBlockedOn | kernel/src/scheduler/mod.rs:522-536 | the loop wakes the first task blocked on the reason, if there is one |
| SchedulerImpl.SchedulerState.PreemptIfOutranked | kernel/src/scheduler/mod.rs:543-556 | refines the state machine's; dispatches exactly when a queued task outranks the running one, which `Switching.TransferSwitches` says of whole steps |
| Invariant.SendKeeps | kernel/src/syscall.rs:184-211 | every outcome of a send, blocked, refused or sent, keeps the kernel's invariant |
| Invariant.ReceiveKeeps | kernel/src/syscall.rs:214-236 | every outcome of a receive keeps the kernel's invariant |
| Invariant.DispatchSyscallKeeps | kernel/src/syscall.rs:116-146 | every system call, unknown numbers included, keeps the kernel's invariant |
| Invariant.TimerKeeps | kernel/src/scheduler/mod.rs:422-433 | the timer interrupt keeps the kernel's invariant |
| Invariant.StepKeeps | kernel/src/context/trap.rs:188-221 | every possible event keeps the kernel's invariant |
| Runs.BootInv | kernel/src/boot.rs:149-202 | the boot sequence ends in a state that satisfies the invariant |
| Privilege.FirstContext | kernel/src/context/mod.rs:170-191 | until a task first runs, and at the moment it does, its context has the entry point, the exit trap in x1, the end of its stack in x2, the global pointer in x3, zeros elsewhere, and a status word for its declared mode with interrupts on |
| Privilege.ModesAlways | kernel/src/scheduler/mod.rs:229-255 | in every reachable state the status word of every task, running or saved, has the privilege mode it was declared with, and interrupts on |
| Privilege.BootIsFresh | kernel/src/boot.rs:149-202 | boot leaves every task able to run, queued in slot order, with every channel empty and time at zero |
| Runs.RunKeeps | kernel/src/context/trap.rs:188-221 | the invariant holds along every run |
| CaPip.SchedulerIsConsistent | kernel/src/scheduler/mod.rs:201-215 | in every reachable state the queue holds exactly the ready slots under their effective priorities, exactly the current task runs, and the kernel has not halted |
| CaPip.TopPriorityRuns | kernel/src/scheduler/mod.rs:422-556 | in every reachable state no ready task has a higher effective priority than the running one |
| CaPip.NoPriorityInversion | kernel/src/scheduler/mod.rs:422-556 | while something ranked below a task runs, neither that task nor anyone with a contention path to it is ready |
| Ipc.NoLostWakeup | kernel/src/syscall.rs:184-236 | in every reachable state a task blocked on a receive faces an empty channel, and one blocked on a send a full one |
| Ipc.StepExplains | kernel/src/syscall.rs:184-236 | every step changes the channels exactly as its observed send or receive says |
| Ipc.FifoConservation | kernel/src/syscall.rs:184-236 | over every run from boot, the messages sent on a channel are those received on it followed by at most eight still queued |
| Transfers.CallTransfers | kernel/src/syscall.rs:184-236 | what each call moves, in terms of the copies the system calls make; the bytes themselves are the next three rows |
| Delivery.SentBytes | kernel/src/syscall.rs:202-207 | byte j of a sent message is byte j of the sender's buffer, for the length the call names, and memory does not change |
| Delivery.ReceivedBytes | kernel/src/syscall.rs:223-233 | byte j of the receiver's buffer is byte j of the message, as far as both reach; every other byte of memory is as it was, and `a0` is the message's whole length |
| Delivery.EndToEndFromBoot | kernel/src/syscall.rs:184-236 | over every run from boot, the n-th receive on a channel stores byte for byte what the sender's buffer held at the n-th send, which came before, and returns the length that was sent |
| Delivery.ReadableExactly | kernel/src/syscall.rs:72-78 | a buffer may be read from if and only if it is empty, or does not wrap and lies inside the task's region, its stack or flash |
| Delivery.WritableExactly | kernel/src/syscall.rs:158-160 | a buffer may be written to if and only if it is empty, or does not wrap and lies inside the task's region or its stack |
| Delivery.SentReadsOwn | kernel/src/syscall.rs:149-155 | every byte of a sent message was read from the sender's own region, its stack or flash |
| Refusals.SendHasFate | kernel/src/syscall.rs:184-211 | a send transfers if and only if the task's declaration allows it and there is room; without room it reports EAGAIN or parks the caller at its `ecall` unchanged; otherwise it returns the error of the first failed check and changes nothing else |
| Refusals.ReceiveHasFate | kernel/src/syscall.rs:214-236 | the same for a receive, with a message instead of room |
| Refusals.LogHasFate | kernel/src/syscall.rs:241-261 | `SYS_LOG` returns EPERM without the console capability, EFAULT for memory the task may not read, and the length cut to 256 otherwise, and changes nothing in the system |
| Refusals.OtherCallsOnlyReturn | kernel/src/syscall.rs:135-145 | `SYS_NOW` returns the tick count and an unknown number ENOSYS, and nothing else changes |
| Effects.OthersWait | kernel/src/scheduler/mod.rs:366-536 | a switched-out task stops waiting at a step exactly when its tick is reached, or the other end of its channel transfers |
| Effects.ContextPreserved | kernel/src/context/trap.rs:44-149 | no step changes any register of a task that is not running, whether it is resumed by the step or not |
| Effects.OwnContext | kernel/src/context/trap.rs:188-221 | an interrupt is invisible to the interrupted task; a system call changes only `a0` and continues after the `ecall`, or leaves the task at it |
| Restart.BlockedIsWaiting | kernel/src/syscall.rs:170-174 | a task blocked on a channel sits at the `ecall` it will repeat, with arguments that pass every check |
| Restart.BlockedUntilRetry | kernel/src/syscall.rs:170-174 | from then until its next call, over any run, its registers do not change, and once woken what it waited for stays available |
| Restart.RestartCompletesOnce | kernel/src/syscall.rs:184-236 | its next call is that same call, transfers exactly one message and does not block again |
| Restart.StepByHolder | kernel/src/syscall.rs:163-165 | only the running holder of an endpoint sends or receives on it |
| SleepExact.ReachedExactly | kernel/src/scheduler/mod.rs:359-361 | the wrapping comparison says "reached" exactly at the deadline, or when more than 2^31 ticks are still to go |
| SleepExact.SleepCall | kernel/src/scheduler/mod.rs:486-498 | the call blocks its caller until the requested number of ticks, at least one, has been added to the current count; its result is 0, and nothing else of its context, no memory and no channel changes |
| SleepExact.NotWokenEarly | kernel/src/scheduler/mod.rs:366-382 | a sleep of at most 2^31 + 1 ticks lasts through every run with fewer timer interrupts, from any tick count |
| SleepExact.WokenOnTime | kernel/src/scheduler/mod.rs:366-382 | and the task can run after exactly that many |
| SleepExact.TooLongIsTooShort | kernel/src/scheduler/mod.rs:359-361 | any longer sleep is ended by the very first timer interrupt |
| Switching.YieldCall | kernel/src/scheduler/mod.rs:478-482 | a yield returns 0 and touches neither memory nor channels; with a ready peer the caller becomes ready and, while ages are sound, the peer queued longest runs; without one the caller goes on with a fresh quantum |
| Switching.TransferSwitches | kernel/src/scheduler/mod.rs:543-556 | a send or receive takes the processor from its caller if and only if the task waiting at the other end ranks strictly higher, and that task then runs; otherwise the caller goes on in the same quantum |
| Switching.TimerSwitches | kernel/src/scheduler/mod.rs:410-474 | a timer interrupt takes the processor if a task that ranks higher can run once the sleepers are awake, or, at the fifth tick or later by the wrapping counter, one that ranks as high can (while ages are sound); in all other cases the task goes on with its counter one higher |
| Switching.SleepersQueueInOrder | kernel/src/scheduler/mod.rs:366-382 | sleepers woken by the same interrupt queue in slot order, behind everybody already queued |
| Quantum.NotPreemptedEarly | kernel/src/scheduler/mod.rs:410-417 | over every run after a dispatch, a timer interrupt that takes the processor finds somebody who ranks higher, or is at least the fifth since and finds somebody who ranks as high |
| Quantum.KeepsProcessorExactly | kernel/src/scheduler/mod.rs:446-474 | through the first four ticks of its quantum a task that makes no call stays the running one throughout a run if and only if at no moment of it a task that ranks higher can run |
| Quantum.OtherInterruptIsInvisible | kernel/src/context/trap.rs:202-207 | an interrupt other than the timer's changes nothing but the frame it was saved in |
| RoundRobin.StepTurn | kernel/src/scheduler/mod.rs:410-474 | at every step after which a peer runs, a ready task keeps its place in the queue, and either the same task goes on within its quantum or a peer that was ahead takes over and is ahead no longer |
| RoundRobin.BoundedWait | kernel/src/scheduler/mod.rs:410-474 | while only tasks of its own priority run and the window holds, a ready task with `a` peers ahead of it waits for at most 5(a + 1) timer interrupts |
| Ages.BoundedWaitEarly | kernel/src/scheduler/mod.rs:410-474 | the same bound with no assumption about the window, as long as 2^31 insertions cannot have been made by the end of the run |
| Ages.StepInserts | kernel/src/scheduler/mod.rs:346-382 | a trap makes at most 17 insertions, and a task's own work none |
| Ages.EarlyAgesAreSound | kernel/src/scheduler/queue.rs:22-24 | in every reachable state, at most 2^31 insertions since boot mean that ages are in order |
| Ages.ShortRunsAreSound | kernel/src/scheduler/queue.rs:22-24 | so they are after every run from boot of at most 2^31 / 17 - 1 traps |
| Isolation.ProtectionTracksRunning | kernel/src/scheduler/mod.rs:312-323 | in every reachable state the protection entries match exactly the running task's region |
| Isolation.StepStoresAreOwn | kernel/src/syscall.rs:214-236 | no step, by a task or by a system call, changes a byte outside the running task's own region and stack |
| Isolation.SwitchedOutIsUntouched | kernel/src/context/trap.rs:44-149 | however long a task is switched out, its registers and its memory stay exactly as they were |
| Isolation.KernelStacksUntouched | kernel/src/context/mod.rs:139-144 | over every run, no store of a task and no copy of a system call goes to the kernel stacks, where the saved frames are |
| Isolation.FramesAreInPlace | kernel/src/context/mod.rs:139-144 | in every reachable state `mscratch` is the running task's kernel stack top, and every saved frame lies 144 bytes below its own, inside its own kernel stack |
| KernelImpl.ChannelTable.TrySend | kernel/src/ipc/kernel.rs:43-49 | appends to the addressed channel, or hands the message back exactly when that is full, and leaves the other seven as they were |
| KernelImpl.ChannelTable.TryReceive | kernel/src/ipc/kernel.rs:43-49 | takes the oldest message of the addressed channel and leaves the other seven as they were |
| KernelImpl.KernelState.BlockAndRestart | kernel/src/syscall.rs:170-174 | refines the state machine's |
| KernelImpl.KernelState.SysSend | kernel/src/syscall.rs:184-211 | refines the state machine's send, check by check; `Refusals.SendHasFate` and `Delivery.SentBytes` say what that is |
| KernelImpl.KernelState.SysReceive | kernel/src/syscall.rs:214-236 | refines the state machine's receive, check by check; `Refusals.ReceiveHasFate` and `Delivery.ReceivedBytes` say what that is |
| KernelImpl.KernelState.Dispatch | kernel/src/syscall.rs:116-146 | refines the state machine's, for every call number; each has a lemma about its whole step in `Refusals`, `Switching`, `SleepExact` or `Delivery` |
| KernelImpl.KernelState.OnTimerInterrupt | kernel/src/scheduler/mod.rs:422-433 | refines the state machine's |
| KernelImpl.KernelState.TrapHandler | kernel/src/context/trap.rs:188-221 | causes 8 and 11 are system calls, interrupt 7 is the timer's, other interrupts are handled and ignored, and every other cause returns no frame; in the first three cases it refines the state machine's handler |
| KernelImpl.KernelState.Trap | kernel/src/context/trap.rs:44-149 | save, handle, resume: every trap that is not a fault is one possible step of the state machine, keeps its invariant, and leads from a reachable state to a reachable one |
| KernelImpl.KernelState.PrepareFrames | kernel/src/scheduler/mod.rs:229-255 | writes every task's first context, which `Privilege.FirstContext` spells out, to the top of its kernel stack and records where |
| KernelImpl.BootCommutes | kernel/src/boot.rs:149-158 | choosing the first task before the frames are prepared gives the same state as after |
| KernelImpl.KernelState.Start | kernel/src/boot.rs:149-202 | boot ends in the state machine's boot state, which is reachable and satisfies the invariant |

## Left out

- Interleaving inside one `try_send` or `try_receive`: the kernel calls them with interrupts disabled on one hart, so each is one step.
- Priority inversion through channel waits: these create no contention edges, so the results concern ready tasks only.
- UART output, including the bytes `SYS_LOG` writes and the syscall-mode notes: input and output only.
- Fault diagnostics, the panic handler and halt loops: a fault ends the run, and a halted scheduler is a flag that is proved never set.
- The trap stub's individual loads and stores: the stub saves and restores a register file in one step.
- The host-side generator, the OML transpiler, linker scripts and shell scripts: not kernel code.
- Demo task bodies, `LineBuf`, error decoding, zero-sized capability tokens and `MemoryRegion`: they would only add easy members.
- Switch-latency statistics, stack canaries and `check_region_placement`: measurements and probes.
- The build without the `pmp` feature.
- Kernel memory other than frames: the model's memory holds what tasks own, and frames are a map from addresses to contexts.
- Isolation.StepStoresAreOwn: assumes that a machine-mode task stores only in its own stack, because PMP does not constrain machine mode and task bodies are not modelled.
- Isolation.SwitchedOutIsUntouched: makes the same assumption, and keeps saved frames in a map of their own; that nothing in the kernel stacks' memory is ever stored to by a task is `Isolation.KernelStacksUntouched`.
- Mip.ComputeMipValues: its local fixed arrays are sequences of the same length, with every index in range.
- Detectors.CheckCapabilityConflicts: a conflict names the two slots rather than the two task ids the source prints.
- Detectors.CheckChannelConflicts: the same, for endpoints.
- Tasks.TaskRegistry.RegisterTask: a full registry is refused with a result where the source panics.
- KernelImpl.KernelState.TrapHandler: a fault returns no frame where the source halts.
