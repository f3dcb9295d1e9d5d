# Verification of the Thumb-16 simulator and its RTOS

A Dafny model of the repository's two cores, the RTOS kernel with its synchronisation objects and the Thumb-16
processor, and of three smaller ones: the parallel simulation runner, the serial flash behind the SPI master, and the
Intel HEX loader. `dafny verify dfyconfig.toml` checks everything.

Each part has up to three layers. Value functions say what one call does. Classes with the source's own fields perform
the calls in place, loop by loop, and every method is proved to do what the value function says. Lemmas then prove what
the source promises about those functions, over every run where the promise is about runs. What each single call leaves
is also stated without its value function: task tables entry by entry, flags one by one, words bit by bit, memory byte by
byte.

| part | values | objects | properties |
|---|---|---|---|
| scheduler | Kernel.dfy | Scheduler.dfy | KernelProperties.dfy, KernelEffects.dfy, Runs.dfy, SchedulerRuns.dfy |
| mutex, semaphore, queue, event group | Mutex.dfy, Semaphore.dfy, Queue.dfy, EventGroup.dfy (waiter arrays: WaitList.dfy) | the same files | the same files, QueueRuns.dfy, EventRuns.dfy |
| all objects on one scheduler | Sharing.dfy, Worlds.dfy | | the same files |
| processor and memory | Memory.dfy, Cpu.dfy | Processor.dfy | Instructions.dfy, MemoryInstructions.dfy, BlockTransfers.dfy (bits of a word: Bits.dfy), Running.dfy, Factorial.dfy, Multiword.dfy, CallReturn.dfy |
| parallel runner | ParallelSim.dfy | ParallelSim.dfy | ParallelSim.dfy, SimulationResults.dfy |
| flash and SPI | Flash.dfy | Flash.dfy | Flash.dfy |
| HEX loader | Loader.dfy | Loader.dfy | Loader.dfy |

A context switch is the end of a method: what a call does up to the next change of the current task is one action, and a
run is any sequence of actions. Every task has a place (its own code, a delay, a blocking call of the object under study,
or one of another object), which the run theorems relate to the task table. The run theorems about one object allow
others beside it, on the assumption that each wakes only tasks BLOCKED in it. Each kind of object is proved to keep to
that (`WakesOnlyItsOwn`), and Worlds.dfy concludes that all promises hold at once in every program with any number of
objects on one scheduler.

The run theorems assume what the code needs: priorities below 0xFF, a clock that stays below 2^32 - 1, blocking calls
only by the running task, tasks that suspend and delete only themselves, unlocking only by the owner, no second lock
by the owner, and event flags set only where they meet no waiter that outranks the setter. Without the last one another
task gets the processor while a woken waiter is still listed (rtos/event_group.h:72-73); the stale entry can later unblock
that task wherever it is BLOCKED, and if it waits for a mutex it enters the critical section beside the owner
(`MutexRuns.StrayWakeUpBreaksExclusion`). `EventRuns.PerformKeeps` shows the condition to be exact. The single calls are
specified without these assumptions.

Where code and documentation disagree the model follows the code. The mutex comment on priority inheritance
(rtos/mutex.h:12) has no code behind it. The factorial source says the program ends with BKPT (programs/factorial.s:14);
it ends with BX LR. A page program at an unaligned address fills the page from its start (peripherals/spi.cpp:83), where
the device starts at the address. A hex byte is accepted when only its first character is a digit (src/loader.cpp:9-15),
so replacing the second digit of "00" by another character goes unnoticed; `HexRoundTrip.DamagedLineLoads` says exactly
which replacements by characters other than line endings do.

## Model

| member | source | states |
|---|---|---|
| KernelProperties.SelectSpec | rtos/scheduler.cpp:158-174 | The chosen task is READY, no READY task is more urgent, and among equally urgent ones it is the first after the current task going round; none is chosen if and only if every READY task has priority 0xFF |
| KernelCalls.JumpDecreases | rtos/scheduler.cpp:194-219 | Each clock jump leaves strictly fewer tasks with a pending wake time, so the dispatch loop ends |
| KernelProperties.JumpRefinesTicking | rtos/scheduler.cpp:129-137 | When nothing is READY, one jump to the earliest wake time gives the table and clock that ticking by 1 with the wake loop gives at the first tick that makes a task READY |
| KernelProperties.DispatchSpec | rtos/scheduler.cpp:179-221 | After any dispatch: exactly the current task is RUNNING, no READY task outranks it, it comes first going round among equally urgent ones, every other task kept its state unless its delay ended exactly at the new clock, the clock moved only if nothing was READY, and an idle processor leaves nothing READY, no wake time pending and the clock where it was |
| KernelProperties.DispatchComesCloser | rtos/scheduler.cpp:158-174 | A dispatch that passes over a READY task of the best priority strictly reduces its cyclic distance from the current task |
| KernelEffects.CreateEffect | rtos/scheduler.cpp:16-45 | A table with room gets one last entry with exactly the requested priority, READY and without a wake time, and nothing else changes; a full table stays as it is |
| KernelEffects.SleepEffect | rtos/scheduler.cpp:76-86 | The caller of a delay d > 0 is BLOCKED until tick + d and READY or RUNNING again only when the clock shows exactly that; everybody else makes an allowed step, and the right task runs next |
| KernelEffects.SleepWraps | rtos/scheduler.cpp:76-86 | For every d the wake time kept is the sum modulo 2^32, also where that lies in the past or is 0 and so never comes |
| KernelEffects.YieldEffect | rtos/scheduler.cpp:78-82 | A delay of 0 takes no time, and the caller goes on if and only if every other READY task is less urgent |
| KernelEffects.SuspendEffect | rtos/scheduler.cpp:89-93 | The caller ends SUSPENDED, keeps its priority, and the right task runs next; another task only changes its state |
| KernelEffects.DeleteEffect | rtos/scheduler.cpp:101-105 | The same with DELETED |
| KernelEffects.BlockEffect | rtos/scheduler.cpp:108-112 | The same for the running task with BLOCKED; with nobody running nothing changes |
| KernelEffects.ResumeEffect | rtos/scheduler.cpp:95-99 | Exactly a SUSPENDED task becomes READY, nobody is scheduled, and nothing else changes |
| KernelEffects.UnblockEffect | rtos/scheduler.cpp:114-125 | Only a BLOCKED task is unblocked; it becomes READY while the caller goes on, or, if strictly more urgent, the caller stays READY and the scheduler chooses without time passing |
| KernelEffects.AdvanceEffect | rtos/scheduler.cpp:129-137 | The clock moves by ms modulo 2^32, and exactly the BLOCKED tasks with a wake time from 1 to the new clock become READY; every other entry is as before |
| KernelEffects.TickEffect | rtos/scheduler.cpp:128-144 | A tick preempts if and only if a task that is READY by the new time outranks the running one; else only the time passes |
| KernelEffects.StartEffect | rtos/scheduler.cpp:61-73 | Starting puts the first READY task of least priority number on the processor and changes nothing but its state; without a READY task nothing happens |
| Scheduling.Scheduler.constructor | rtos/scheduler.h:75-79 | The table starts empty, at tick 0, with nobody running |
| Scheduling.Scheduler.XTaskCreate | rtos/scheduler.cpp:16-45 | Appends a block with the requested priority, READY and without a wake time, and returns its index; a full table is left as it was and the invalid handle returned |
| Scheduling.Scheduler.BestReady | rtos/scheduler.cpp:159-164 | The scan finds the least priority number of the READY tasks |
| Scheduling.Scheduler.FirstFrom | rtos/scheduler.cpp:166-173 | The circular scan finds the first READY task of that priority from the start index |
| Scheduling.Scheduler.SelectNext | rtos/scheduler.cpp:158-174 | Both scans together make the choice that `SelectSpec` is about |
| Scheduling.Scheduler.EarliestWake | rtos/scheduler.cpp:194-199 | The scan finds the least pending wake time, or the largest 32-bit value |
| Scheduling.Scheduler.WakeDue | rtos/scheduler.cpp:130-137 | Makes READY exactly the BLOCKED tasks whose pending wake time has come and clears their wake time |
| Scheduling.Scheduler.ScheduleFrom | rtos/scheduler.cpp:179-221 | The dispatch loop on the table in place performs the dispatch that `DispatchSpec` is about (`schedule_after_delete`, lines 226-261, is the same loop) |
| Scheduling.Scheduler.VTaskStartScheduler | rtos/scheduler.cpp:61-73 | Puts the chosen task on the processor, or returns at once when there is none |
| Scheduling.Scheduler.VTaskDelay | rtos/scheduler.cpp:76-86 | Delay 0 yields; otherwise the task is BLOCKED until now + ticks modulo 2^32; without a running task nothing happens |
| Scheduling.Scheduler.VTaskSuspend | rtos/scheduler.cpp:89-93 | Suspends a task in the table and gives up the processor when it is the current one (`SuspendEffect`) |
| Scheduling.Scheduler.VTaskResume | rtos/scheduler.cpp:95-99 | Only a suspended task becomes READY; nobody is preempted |
| Scheduling.Scheduler.VTaskDelete | rtos/scheduler.cpp:101-105 | Deletes a task in the table and gives up the processor when it is the current one |
| Scheduling.Scheduler.BlockCurrent | rtos/scheduler.cpp:108-112 | Blocks the running task and dispatches; nothing happens when nobody runs |
| Scheduling.Scheduler.Unblock | rtos/scheduler.cpp:114-125 | Only a BLOCKED task becomes READY; it takes the processor exactly when it is more urgent than the running task |
| Scheduling.Scheduler.Tick | rtos/scheduler.cpp:128-144 | Moves the clock modulo 2^32, wakes what is due, and preempts when a woken task is more urgent |
| Runs.StepKeeps | rtos/scheduler.cpp:61-144 | Every action of a task or of the idle main program keeps the system invariant, disturbs no task inside the object under study, and never turns the clock back; other objects wake only tasks that wait elsewhere, which `Sharing.MovesAreLegal` discharges |
| Runs.BlockAtKeeps | rtos/scheduler.cpp:108-112 | Blocking in an object keeps the invariant and changes no other task's place in it |
| Runs.UnblockKeeps | rtos/scheduler.cpp:114-125 | Unblocking, preemption included, keeps the invariant and wakes exactly that task |
| SchedulerRuns.ZeroJitter | rtos/scheduler.cpp:76-86 | In every run of actions without injected ticks, a task that delays by d > 0 is next on the processor at exactly its start tick plus d; `Worlds.DelaysAreExact` carries it to programs that use synchronisation objects |
| SchedulerRuns.StepStaysRightful | rtos/scheduler.cpp:108-144 | No READY task outranks the running one after any action but a resume or a late creation; when the start call returns nothing is READY and no wake time is pending |
| SchedulerRuns.RunStaysRightful | rtos/scheduler.cpp:158-221 | The same over whole runs |
| SchedulerRuns.FreshRunIsConsistent | rtos/scheduler.cpp:16-73 | From the empty table, over every run of actions: one RUNNING task equal to the current one, or none when nobody is current; wake times lie ahead and belong to BLOCKED tasks (`Worlds.SchedulerSeesARun` for programs with synchronisation objects) |
| SchedulerRuns.BoundedBypass | rtos/scheduler.cpp:166-173 | While a READY task of the best priority waits and no task is created, at most task count - 1 dispatches pass it over |
| SchedulerRuns.PrioritiesAreThoseRequested | rtos/scheduler.cpp:16-45 | Over every run of actions the priorities in the table are those asked for, in order, cut off at sixteen: every task keeps the priority it was created with |
| SchedulerRuns.CreationsFillTable | rtos/scheduler.cpp:16-45 | Any list of creations on an idle processor leaves the granted requests in the table in order, all READY |
| SchedulerRuns.StartRunsMostUrgent | rtos/scheduler.cpp:61-73 | Started after any list of requests, the scheduler runs the first task of the least priority number among the first sixteen, and the others stay READY; without a request nothing runs |
| WaitList.FindBest | rtos/mutex.h:31-47 | The minimum search over a waiter array finds the first waiter of least priority number |
| WaitList.SwapRemoveKeepsRest | rtos/mutex.h:41-42 | Removal by moving the last entry keeps exactly the multiset of the others |
| WaitList.BestIsTakenOff | rtos/mutex.h:33-42 | The waiter taken off has, by the table, the least priority number and comes first among equals; the last waiter takes its slot and the others keep theirs |
| WaitList.Pigeonhole | rtos/mutex.h:24-26 | Distinct handles below n that leave out one of them are fewer than n |
| Mutexes.MutexObject.Lock | rtos/mutex.h:21-28 | Takes a free mutex, or appends the caller to the waiters and blocks it |
| Mutexes.MutexObject.Unlock | rtos/mutex.h:31-47 | Hands the mutex to the most urgent waiter and unblocks it, or frees it |
| Mutexes.MutexObject.TryLock | rtos/mutex.h:50-54 | Takes the mutex exactly when it is free and otherwise changes nothing |
| MutexRuns.NeverDropped | rtos/mutex.h:24-26 | Whenever a task may lock, the 16-slot waiter array has room |
| MutexRuns.PerformKeeps | rtos/mutex.h:21-54 | Every call keeps the mutex invariant |
| MutexRuns.MutualExclusion | rtos/mutex.h:21-54 | In every run at most one task is between a return from lock and its unlock and it is the owner; waiters are distinct, BLOCKED and never the owner; waiters imply an owner |
| MutexRuns.HandOff | rtos/mutex.h:31-47 | The new owner is the waiter with the least priority number in the table, the first such in the array; it alone is taken off, it is no longer BLOCKED, and nobody is inside |
| MutexRuns.CallSpec | rtos/mutex.h:21-54 | Lock and try on a free mutex take it without a switch; lock on a taken one blocks the caller last in line, try changes nothing; an unlock without waiters frees it; a return from lock enters as owner |
| MutexRuns.WakesOnlyItsOwn | rtos/mutex.h:21-54 | The guarantee to every other object: a call blocks or returns the running task and unblocks only a task that is BLOCKED in this mutex |
| MutexRuns.StrayWakeUpBreaksExclusion | rtos/mutex.h:21-28 | The matching assumption is needed: a wake-up of any waiter by anyone but the unlocker breaks the invariant, and when that waiter gets the processor it returns from lock into the critical section beside the owner |
| Semaphores.SemaphoreObject.Take | rtos/semaphore.h:26-32 | Takes a unit, or appends the caller to the waiters and blocks it |
| Semaphores.SemaphoreObject.Give | rtos/semaphore.h:35-50 | Hands the unit to the most urgent waiter, or counts it up to the maximum |
| Semaphores.SemaphoreObject.TryTake | rtos/semaphore.h:53-57 | Takes a unit exactly when there is one |
| SemaphoreRuns.PerformKeeps | rtos/semaphore.h:26-57 | Every call keeps the semaphore invariant |
| SemaphoreRuns.Conservation | rtos/semaphore.h:26-57 | In every run: initial units + accepted gives = count + granted takes; 0 <= count <= max; waiters imply a count of 0 |
| SemaphoreRuns.GiveSpec | rtos/semaphore.h:35-50 | A give is discarded exactly at the maximum with nobody waiting; otherwise without waiters the count rises by one, and with waiters the one with the least priority number in the table gets the unit, is woken and alone taken off, and the count stays |
| SemaphoreRuns.TakeSpec | rtos/semaphore.h:26-57 | With a unit there, take and try lower the count by one without a switch; without one, take blocks the caller last in line and try changes nothing |
| SemaphoreRuns.WakesOnlyItsOwn | rtos/semaphore.h:26-57 | A call unblocks only a task that is BLOCKED in this semaphore |
| QueueCalls.CommitAppends | rtos/queue.h:30-32 | Storing at the tail index appends to the contents, across wrap-round |
| QueueCalls.RemoveTakesFirst | rtos/queue.h:43-45 | Taking at the head index removes the oldest item |
| Queues.QueueObject.WakeReceiver | rtos/queue.h:76-87 | Removes the most urgent receiver from the list and unblocks it |
| Queues.QueueObject.WakeSender | rtos/queue.h:89-100 | Removes the most urgent sender from the list and unblocks it |
| Queues.QueueObject.SendPass | rtos/queue.h:24-34 | One pass of the waiting loop: commits the item and wakes a receiver, or registers and blocks the caller |
| Queues.QueueObject.ReceivePass | rtos/queue.h:37-48 | One pass of the waiting loop: removes the oldest item and wakes a sender, or registers and blocks the caller |
| Queues.QueueObject.TrySend | rtos/queue.h:51-58 | Commits exactly when the queue is not full, and otherwise changes nothing |
| Queues.QueueObject.TryReceive | rtos/queue.h:61-68 | Removes exactly when the queue is not empty, and otherwise changes nothing |
| QueueRuns.PerformKeeps | rtos/queue.h:24-68 | Every call, blocking or not, keeps the waiter lists, the wake-up and the content invariants |
| QueueRuns.SendSpec | rtos/queue.h:24-58 | Below the capacity, every form of send puts its item behind the contents and takes off and wakes the receiver with the least priority number; at the capacity it blocks the caller last in line, and a try changes nothing |
| QueueRuns.ReceiveSpec | rtos/queue.h:37-68 | From a queue that is not empty, every form of receive takes the oldest item and takes off and wakes the sender with the least priority number; from an empty one it blocks the caller last in line, and a try changes nothing |
| QueueRuns.ExactlyOnceInOrder | rtos/queue.h:24-68 | In every run: items received in order followed by the buffer from the head are the items sent in order; the tail is head + count modulo the capacity |
| QueueRuns.NobodySleepsInVain | rtos/queue.h:24-100 | In every reachable state a sleeping receiver means count <= woken receivers and a sleeping sender means free slots <= woken senders; so when nothing is READY and nobody runs, no receiver sleeps on items, no sender on room, and never both |
| QueueRuns.WakesOnlyItsOwn | rtos/queue.h:24-100 | A call unblocks only a task that is BLOCKED in this queue |
| EventFlags.AllRequested | rtos/event_group.h:65 | `(flags & bits) == bits` if and only if every flag 0 to 31 that is requested is set |
| EventFlags.SomeRequested | rtos/event_group.h:66 | `(flags & bits) != 0` if and only if some requested flag is set |
| EventCalls.SatisfiedFlagByFlag | rtos/event_group.h:64-67 | The condition of a wait, flag by flag, for both kinds |
| EventCalls.CheckSpec | rtos/event_group.h:69-78 | The compacting loop keeps exactly the waiters whose condition fails, as a multiset, and wakes the rest |
| EventCalls.CheckSplits | rtos/event_group.h:69-78 | The same, entry by entry |
| EventCalls.PassCompletes | rtos/event_group.h:69-78 | If no met waiter outranks the running task, the loop with its unblockings runs to the end before anyone else does |
| EventCalls.PassSettlesIff | rtos/event_group.h:69-78 | The loop reaches its end, and leaves no met waiter listed at the next switch, if and only if no met waiter outranks the running task |
| EventCalls.ResumedPassAgrees | rtos/event_group.h:69-78 | If nobody uses the group meanwhile, a loop that was switched out and goes on later ends with the list it would have left without the switch |
| EventGroups.EventGroupObject.CheckWaiters | rtos/event_group.h:69-78 | The loop on the array in place, from any index up to its end or to the unblocking that switches to another task |
| EventGroups.EventGroupObject.ResumeCheck | rtos/event_group.h:72-73 | The rest of the loop when the caller has the processor again: whatever stands at its index goes, and the loop goes on |
| EventGroups.EventGroupObject.SetBits | rtos/event_group.h:21-24 | Sets the flags, flag by flag, and checks the waiters, up to the first switch; `ResumeCheck` is the rest |
| EventGroups.EventGroupObject.ClearBits | rtos/event_group.h:27 | Clears exactly the given flags, flag by flag, and does nothing else |
| EventGroups.EventGroupObject.WaitPass | rtos/event_group.h:36-49 | One pass of the waiting loop: it is over if and only if all, or any, of the requested flags are set; then it answers with the flags and clears the requested ones on request, else it registers and blocks the caller |
| EventRuns.PerformKeeps | rtos/event_group.h:21-49 | A call keeps the event group invariant if and only if it does not set flags that meet a waiter outranking the setter |
| EventRuns.WakesOnlyItsOwn | rtos/event_group.h:21-78 | Where setters meet nobody who outranks them, a call unblocks only tasks that are BLOCKED in this group |
| EventRuns.NobodyWaitsInVain | rtos/event_group.h:21-78 | In every run where setters meet nobody who outranks them, told flag by flag: no registered waiter's request is fulfilled, every task BLOCKED in a wait is registered, and every wait that came back returned a snapshot in which all, or any, of the requested flags are set |
| EventRuns.SetBitsSpec | rtos/event_group.h:21-24 | The flags afterwards are those set before and those given; exactly the waiters all, or any, of whose requested flags are then set are woken, and the multiset of the others stays listed |
| EventRuns.ClearBitsSpec | rtos/event_group.h:27 | The flags afterwards are those set before without those given; nothing else changes |
| EventRuns.WaitBitsSpec | rtos/event_group.h:36-49 | A wait, when called and whenever its task runs again: with all, or any, requested flags set it returns the flags and takes the requested ones away if asked to; otherwise the flags stay and its task is BLOCKED and last on the list |
| EventRuns.SetBitsSettlesIff | rtos/event_group.h:21-24 | In every state that satisfies the invariant, that restriction on setters is necessary and sufficient |
| EventRuns.OutrankedSetterLeavesWaiter | rtos/event_group.h:72-73 | A concrete state in which the woken waiter has the processor while it is still listed |
| Sharing.MovesAreLegal | rtos/scheduler.cpp:108-125 | What one object does to the system is, in the view of every other object, a legal run of actions, and the two views still fit |
| Worlds.WorldKeeps | rtos/scheduler.cpp:108-125 | One scheduler with any number of mutexes, semaphores, queues and event groups: every call on one object, and every plain action, keeps the invariant of all objects |
| Worlds.EveryPromiseHoldsAtOnce | rtos/mutex.h:21-54 | In every run of such a program each mutex excludes, each semaphore conserves its units, each queue delivers exactly once in order with nobody sleeping in vain, each event group leaves nobody waiting for flags that are set, and the task table is consistent |
| Worlds.SchedulerSeesARun | rtos/scheduler.cpp:61-144 | To the scheduler every run of such a program is a legal run of actions, so every scheduler theorem applies to it |
| Worlds.DelaysAreExact | rtos/scheduler.cpp:76-86 | A delay of d > 0 takes exactly d ticks in every run of such a program without injected ticks |
| Processor.FlatMemoryBus.Read16 | src/memory.cpp:44-50 | Little-endian read; faults exactly on unmapped or overrunning addresses |
| Processor.FlatMemoryBus.Read32 | src/memory.cpp:52-58 | Little-endian read; faults exactly on unmapped or overrunning addresses |
| Processor.FlatMemoryBus.Write8 | src/memory.cpp:60-62 | Changes one byte, or faults and changes nothing |
| Processor.FlatMemoryBus.Write16 | src/memory.cpp:64-68 | Little-endian write, or a fault and no change |
| Processor.FlatMemoryBus.Write32 | src/memory.cpp:70-74 | Little-endian write, or a fault and no change |
| Processor.FlatMemoryBus.Load | src/memory.cpp:76-80 | Copies all bytes to the translated address, or faults and changes nothing |
| MemoryMap.WordRoundTrip | src/memory.cpp:52-74 | A written word reads back and no byte outside it changes |
| MemoryMap.HalfRoundTrip | src/memory.cpp:44-68 | A written halfword reads back and no byte outside it changes |
| MemoryMap.StoredBytes | src/memory.cpp:76-80 | A stored block is there byte for byte and every byte outside it stays |
| Processor.CortexM0.Reset | src/cpu.cpp:27-35 | SP is 0x2000; every other register, the flags, the cycle count and the halt state are cleared; memory stays |
| Processor.CortexM0.ExecShiftImm | src/cpu.cpp:144-170 | Shifts by an immediate, with the carry and the zero-count special cases; in place, as the value function that `Instructions.ShiftByConstant` describes by its result |
| Processor.CortexM0.ExecAddSub | src/cpu.cpp:174-190 | Three-operand ADD and SUB; in place, as the value function that `Instructions.AddSubtract` describes by its result |
| Processor.CortexM0.ExecImm8 | src/cpu.cpp:194-229 | MOV, CMP, ADD, SUB with an 8-bit immediate; in place, as the value function that `Instructions.Immediate` describes by its result |
| Processor.CortexM0.ExecAluShift | src/cpu.cpp:234-256 | Shifts by register, counts of 32 and more included; in place, as the value function that `Instructions.ShiftByRegister` describes by its result |
| Processor.CortexM0.ExecAluArith | src/cpu.cpp:259-267 | ADC, SBC and CMP through the carry flag; in place, as the value function that `Instructions.Arithmetic` describes by its result |
| Processor.CortexM0.ExecAlu | src/cpu.cpp:271-293 | The sixteen two-operand operations; in place, as the value function that `Instructions.Logic` describes by its result |
| Processor.CortexM0.ExecHiRegBx | src/cpu.cpp:297-322 | High-register ADD, CMP, MOV and BX, which halts on 0; in place, as the value function that `Instructions.HighRegisters` describes by its result |
| Processor.CortexM0.ExecLoadStore | src/cpu.cpp:326-385 | The load and store formats with register, immediate and PC-relative addresses; in place, as the value function that `MemoryInstructions.FetchedLoad` and `MemoryInstructions.FetchedStore` describe by their result |
| Processor.CortexM0.ExecAddSpPc | src/cpu.cpp:389-395 | Address from SP or PC; in place, as the value function that `Instructions.MakeAddress` describes by its result |
| Processor.CortexM0.ExecSpOps | src/cpu.cpp:399-403 | SP adjustment; in place, as the value function that `Instructions.MoveStack` describes by its result |
| Processor.CortexM0.ExecPushPop | src/cpu.cpp:407-424 | PUSH and POP loops, LR and PC included; in place, as the value function that `BlockTransfers.PushRegisters` and `BlockTransfers.PopRegisters` describe by their result |
| Processor.CortexM0.ExecLdmStm | src/cpu.cpp:428-442 | LDM and STM loops with write-back; in place, as the value function that `BlockTransfers.LoadMultiple` and `BlockTransfers.StoreMultiple` describe by their result |
| Processor.CortexM0.ExecBranchCond | src/cpu.cpp:446-451 | Conditional branch; in place, as the value function that `Instructions.ConditionalBranch` describes by its result |
| Processor.CortexM0.ExecBranch | src/cpu.cpp:455-459 | Unconditional branch; in place, as the value function that `Instructions.UnconditionalBranch` describes by its result |
| Processor.CortexM0.ExecBlUpper | src/cpu.cpp:462-467 | First half of BL; in place, as the value function that `CallReturn.BranchWithLink` describes by its result |
| Processor.CortexM0.ExecBlLower | src/cpu.cpp:468-471 | Second half of BL; in place, as the value function that `CallReturn.BranchWithLink` describes by its result |
| Processor.CortexM0.Execute | src/cpu.cpp:107-140 | The format dispatch; in place, as the value function that `Instructions.UndefinedExactly` describes by its result |
| Processor.CortexM0.Step | src/cpu.cpp:45-63 | Fetch, advance, execute, count; nothing when halted; in place, as the value function that `Instructions.StepExecutes` describes by its result |
| Processor.CortexM0.Run | src/cpu.cpp:65-69 | Steps until the limit, a halt or a fault; in place, as the value function that `Running.RunIsSteps` describes by its result |
| Instructions.StepExecutes | src/cpu.cpp:45-63 | A step executes the two bytes at PC, low byte first, with PC two further, and takes a cycle unless it faults |
| Instructions.FetchFaults | src/cpu.cpp:45-63 | If PC reaches no two bytes of memory the step only raises a bus fault with PC as its address |
| Instructions.ShiftByConstant | src/cpu.cpp:144-170 | LSL, LSR, ASR by a constant, fetched: each bit of the result, the carry as the last bit out, N, Z; a count of 0 means 32 for LSR and ASR |
| Instructions.ShiftByRegister | src/cpu.cpp:234-256 | LSL, LSR, ASR, ROR by a register, fetched, for all counts 0 to 255: each bit of the result and the carry |
| Instructions.AddSubtract | src/cpu.cpp:174-190 | ADD and SUB of a register or a 3-bit constant, fetched: sum or difference modulo 2^32, C as unsigned carry or no borrow, V as the signed result not fitting |
| Instructions.Immediate | src/cpu.cpp:194-229 | MOV, CMP, ADD, SUB with an 8-bit constant, fetched, told in the same way |
| Instructions.Arithmetic | src/cpu.cpp:259-290 | ADC, SBC, NEG, CMP, CMN, fetched: results and flags as integer arithmetic with carry and borrow |
| Instructions.Logic | src/cpu.cpp:271-293 | AND, EOR, ORR, BIC, MVN, fetched: every bit of the result from the bits of the operands, N and Z from the result, C and V as before |
| Instructions.Test | src/cpu.cpp:271-293 | TST, fetched: Z if and only if the words have no bit in common, N if and only if both have bit 31 |
| Instructions.Multiply | src/cpu.cpp:271-293 | MUL, fetched: the product modulo 2^32 |
| Instructions.HighRegisters | src/cpu.cpp:297-310 | ADD, CMP, MOV among all sixteen registers, fetched; only CMP touches the flags |
| Instructions.BranchExchange | src/cpu.cpp:311-322 | BX and BLX, fetched: PC is the register without bit 0, BLX leaves the address behind it with bit 0 set in LR, and an even register halts |
| Instructions.MakeAddress | src/cpu.cpp:389-395 | ADD Rd from SP or the word-aligned PC, fetched: the base plus four times the constant |
| Instructions.MoveStack | src/cpu.cpp:399-403 | SP moves up or down by four times the constant, fetched |
| Instructions.Conditions | src/cpu.cpp:84-103 | What each of the sixteen condition codes asks of the flags; with `Multiword.CompareConditions` for the comparisons |
| Instructions.ConditionalBranch | src/cpu.cpp:446-451 | From address A a branch goes to A + 4 + 2d for every signed 8-bit d if its condition holds, else to A + 2 |
| Instructions.UnconditionalBranch | src/cpu.cpp:455-459 | From address A a branch goes to A + 4 + 2d for every signed 11-bit d |
| Instructions.DoesNothing | src/cpu.cpp:128-129 | Breakpoints and hints only take a cycle |
| Instructions.UndefinedExactly | src/cpu.cpp:107-140 | The exception with the opcode is raised if and only if the opcode lies in one of three ranges, and then nothing but PC has changed |
| MemoryInstructions.FetchedLoad | src/cpu.cpp:326-385 | For every encoding of formats 6, 7, 9, 10 and 11: the register gets the word, halfword or byte at base plus offset, low byte first and zero-extended, and nothing else changes; a bus fault with that address if and only if one of the bytes is not mapped |
| MemoryInstructions.FetchedStore | src/cpu.cpp:335-385 | For every storing encoding of these formats: the four, two or one low bytes of the register lie at base plus offset, low byte first, every other byte stays, and it faults, and changes none, if and only if one of them is not mapped |
| MemoryInstructions.StoreThenLoad | src/cpu.cpp:326-385 | A store and then a load of the same size from the same address, by any of the formats: the loaded register holds the stored bytes, for words the whole value |
| BlockTransfers.StoreMultiple | src/cpu.cpp:428-442 | STM, fetched: the listed registers go word by word to ascending addresses, with write-back unless the base is listed, and a fault at the first address that is not mapped |
| BlockTransfers.LoadMultiple | src/cpu.cpp:428-442 | LDM, fetched: likewise, and the base moves behind the words even when it is listed |
| BlockTransfers.PushRegisters | src/cpu.cpp:407-416 | PUSH with any list: LR and then the registers in descending order, downwards from SP, up to the first address that is not mapped |
| BlockTransfers.PopRegisters | src/cpu.cpp:417-424 | POP with any list: the registers in ascending order, then PC, upwards from SP; an even word for PC halts |
| BlockTransfers.StoredBlockLoadsBack | src/cpu.cpp:428-442 | STM, any code that keeps memory, LDM of the same list from the same address gives every listed register its old value |
| Running.StepTakesACycle | src/cpu.cpp:52-63 | A step that does not end the program takes one cycle |
| Running.RunIsSteps | src/cpu.cpp:65-69 | `run(max)` reaches the state of max single steps and counts all of them exactly when the processor is still going |
| Running.RunInPieces | src/cpu.cpp:65-69 | `run(a + b)` is `run(a)` then `run(b)`: same state, and the counts add up unless the first part ended early |
| Running.BatchedEqualsPlain | src/parallel_sim.h:170-189 | The 10,000-step batch loop and one `run` agree on state, cycles and completion, with steps / 10000 checkpoints after a halt and max / 10000 rounded up at the limit, each showing the state of its step |
| Factorial.Round | src/cpu.cpp:45-140 | One loop round multiplies, decrements and branches, in 4 cycles |
| Factorial.Loop | src/cpu.cpp:45-140 | From the loop head with any counter from 1 to 2^31 the loop multiplies by its factorial modulo 2^32 |
| Factorial.MachineCodeComputesFactorial | programs/factorial.s:21-31 | From address 4 the opcodes halt after exactly 4 max(N - 1, 1) + 1 cycles, not before, and r1 is N! modulo 2^32 if and only if 1 <= N <= 2^31 |
| Factorial.ProgramComputesFactorial | README.md:89-101 | The whole program with any 8-bit constant N, under `run` with any sufficient limit: halted, two more cycles, and N! in r1 if and only if N is not 0 |
| Instructions.DecodeAlu | src/cpu.cpp:107-140 | The opcode of each of the sixteen two-operand operations on low registers decodes to that operation |
| Multiword.ChainAdds | src/cpu.cpp:73-80 | Limbs and final carry of an ADC or SBC chain are together the exact sum of the operands and the carry in |
| Multiword.ChainAddsSigned | src/cpu.cpp:73-80 | The signed result misses the exact sum by nothing, or, when V is set, by 2^(32 n) in the direction N shows |
| Multiword.AddChain | src/cpu.cpp:259-267 | For any number n of limbs a chain of ADC from C = 0 computes the 32n-bit sum; C is the unsigned carry and V the signed overflow |
| Multiword.SubtractChain | src/cpu.cpp:84-103 | For any number n of limbs a chain of SBC from C = 1 computes the 32n-bit difference; afterwards CS and CC decide the unsigned order and GE and LT the signed order |
| Multiword.CompareConditions | src/cpu.cpp:84-103 | After a one-limb CMP all ten of EQ, NE, CS, CC, HI, LS, GE, LT, GT, LE match integer comparison |
| CallReturn.BranchWithLink | src/cpu.cpp:462-471 | BL at even A reaches A + 4 + d modulo 2^32 with LR = A + 4 with bit 0 set, for every even d from -2^22 to 2^22 - 2 |
| CallReturn.PushFrame | src/cpu.cpp:407-424 | PUSH {list, LR} writes each listed register to its slot of the frame and changes no byte outside the frame |
| CallReturn.PushFaultsOnlyUnmapped | src/cpu.cpp:407-424 | PUSH {list, LR} faults exactly when part of the frame is not mapped |
| CallReturn.PushListSpec | src/cpu.cpp:407-424 | The PUSH loop from any register on, for any list |
| CallReturn.PopListSpec | src/cpu.cpp:407-424 | The POP loop from any register on, for any list |
| CallReturn.PushPopReturns | src/cpu.cpp:407-424 | PUSH {list, LR}, any body that keeps the frame, POP {list, PC} restores SP and every listed register and resumes at the return address |
| CallReturn.CallReturnsToCaller | src/cpu.cpp:407-471 | BL, PUSH {list, LR}, body, POP {list, PC} fetched from memory: the caller goes on at A + 4, not halted, with SP and the listed registers as before |
| SimulationRunner.TraceCollector.Push | src/parallel_sim.h:58-61 | Appends one record |
| SimulationRunner.TraceCollector.Drain | src/parallel_sim.h:64-67 | Returns all records in order and leaves the log empty |
| SimulationRunner.Runner.Batches | src/parallel_sim.h:170-189 | The batch loop on a processor object: state, completion flag and checkpoint records of the value function |
| SimulationRunner.Runner.Prepare | src/parallel_sim.h:156-169 | A fresh processor whose memory holds exactly the program, two bytes an opcode from address 0, and zeros, with PC = LR = 0, the given SP and everything else 0; a program that does not fit gives a bus fault at 0x10000 |
| Simulation.LoadProgramSpec | src/parallel_sim.h:157-162 | Loading from any opcode on stores each of the rest at its place and touches no other byte; it faults if and only if the program is longer than memory |
| Simulation.BootIsPrepared | src/parallel_sim.h:156-169 | The same as for `Prepare`, about the value the theorems on results and interleavings start from |
| SimulationResults.PreparedIsBoot | src/parallel_sim.h:156-169 | That description leaves nothing open: only one state satisfies it |
| SimulationResults.ResultOfRun | src/parallel_sim.h:148-208 | For every program that fits: registers and cycles of the result are those after `max_steps` single steps; it is completed if and only if the processor halted without a fault; the log is START, a checkpoint of the right step every 10,000 steps and at the limit, and DONE or EXCEPTION |
| SimulationResults.ResultOfBadLoad | src/parallel_sim.h:157-162 | For every program that does not fit: not completed, no cycle, the bus fault message, and START and EXCEPTION in the log |
| SimulationResults.MessageShows | src/memory.cpp:8-12 | The message of a bus fault shows the address with eight hexadecimal digits, and that of an undefined instruction the opcode with four |
| SimulationResults.FactorialTask | programs/factorial.s:21-31 | The seven shipped opcodes as a task, for every 8-bit constant N and any sufficient limit: completed, with N! modulo 2^32 in r1 if and only if N is not 0, and DONE in the log with the exact cycles |
| SimulationRunner.Runner.RunOne | src/parallel_sim.h:148-208 | Result with its exception message, log entries and run counter of one task |
| Simulation.CheckpointsChangeNoResult | src/parallel_sim.h:170-189 | Taking checkpoints changes nothing in the result of a task |
| Interleavings.AdvanceKeepsRest | src/parallel_sim.h:148-208 | Any atomic step of a thread keeps its final result and the records pushed so far plus those still to come |
| Interleavings.ScheduleKeeps | src/parallel_sim.h:116-133 | Every schedule of thread steps and drains keeps the invariant |
| Interleavings.EveryInterleaving | src/parallel_sim.h:116-133 | In every interleaving, with drains at any time, each thread's records in all drains and the log are in order the beginning of what it logs alone; a finished thread has the result of a run alone and has logged all of it, START, checkpoints, then DONE or EXCEPTION; the counter counts finished threads |
| Interleavings.ScheduleComesCloser | src/parallel_sim.h:148-208 | Every schedule of existing threads can be followed to its end, and each move of a thread brings it one action closer to finishing |
| Interleavings.AllFinish | src/parallel_sim.h:116-133 | Every schedule that moves each thread often enough, 4 times its step limit plus 8, lets all threads finish, and then the run counter has grown by the number of tasks |
| FlashChip.W25Q32Flash.constructor | peripherals/spi.h:41-41 | All bytes 0xFF, write latch clear |
| FlashChip.W25Q32Flash.CsAssert | peripherals/spi.h:44-44 | Starts a transaction with an empty buffer |
| FlashChip.W25Q32Flash.CsDeassert | peripherals/spi.h:47-47 | Commits and goes idle |
| FlashChip.W25Q32Flash.Exchange | peripherals/spi.cpp:12-50 | The command, address and data phases, byte by byte |
| FlashChip.W25Q32Flash.HandleData | peripherals/spi.cpp:52-79 | The response and the new state in the data phase of every command |
| FlashChip.W25Q32Flash.Commit | peripherals/spi.cpp:81-94 | The programming loop or the sector erase, in place, under the write latch |
| FlashChip.W25Q32Flash.EraseSector | peripherals/spi.cpp:106-111 | Fills the sector of the address with 0xFF, and does nothing past the capacity |
| FlashRuns.EventSpec | peripherals/spi.cpp:12-94 | For every chip-select or byte event: contents change only at release with the latch set, which clears it, and then by clearing bits inside one page or by setting one sector to 0xFF |
| FlashRuns.EveryChangeIsEnabled | peripherals/spi.cpp:81-94 | Over every sequence of events, each change of the contents has a write-enable command of its own |
| FlashRuns.ProgramTransaction | peripherals/spi.cpp:81-94 | Write-enable and program at any address with any data: the page takes the first 256 bytes from its start, old AND new, and nothing else changes |
| FlashRuns.ReadTransaction | peripherals/spi.cpp:62-66 | Reading returns the bytes from the address on, going round at the end, and changes nothing |
| FlashRuns.ProgramThenRead | peripherals/spi.cpp:12-94 | At every page-aligned address, for 1 to 256 bytes: write-enable, program, read returns old AND new, and all other bytes are as before |
| FlashRuns.EraseTransaction | peripherals/spi.cpp:106-111 | Write-enable and erase sets the sector of the address to 0xFF and changes nothing else |
| FlashRuns.EraseProgramRead | peripherals/spi.cpp:12-111 | Erase, program, read at a page-aligned address gives back exactly the bytes written |
| FlashRuns.UnalignedProgramMisses | peripherals/spi.cpp:83-88 | At every other address a programmed 0 on an erased chip does not read back, so the alignment in `ProgramThenRead` is necessary |
| FlashRuns.LocationSpec | peripherals/spi.cpp:29-42 | The three address bytes stand for 256 a1 + a0; the 64 KB capacity masks the first away |
| FlashRuns.FirstReplies | peripherals/spi.cpp:12-50 | While command and address go out the chip answers 0xFF four times |
| FlashRuns.ReadIdTransaction | peripherals/spi.cpp:54-60 | 0x9F is answered by 0xFF and then 0xEF, 0x40, 0x16 and 0xFF for ever; nothing changes |
| FlashRuns.ReadStatusTransaction | peripherals/spi.cpp:61-62 | 0x05 is answered by 0xFF and then, as often as asked, by 0x02 or 0x00 as the write latch is set or not; nothing changes |
| FlashRuns.HarmlessTransaction | peripherals/spi.cpp:12-94 | Any transaction whose command is not write-enable, and, on a write-enabled chip, not program or erase, leaves contents and latch alone |
| SpiMaster.Spi.SetNss | peripherals/spi.cpp:115-124 | Selects or releases the chip only on a change of the line |
| SpiMaster.Spi.TransferByte | peripherals/spi.cpp:126-128 | One exchange when the chip is selected, otherwise 0xFF |
| SpiMaster.Spi.DoBurst | peripherals/spi.cpp:130-141 | A burst on an idle bus is one whole transaction of the first 4 * length bytes, at most 64, with the replies in the receive registers; on a selected chip it carries on the transaction under way |
| HexLoader.Loader.VerifyChecksum | src/loader.cpp:17-25 | The running 8-bit sum is 0 exactly for a good checksum; a bad digit is reported |
| HexLoader.Loader.DropEnding | src/loader.cpp:57-59 | Drops all trailing carriage returns and line feeds |
| HexLoader.Loader.ReadData | src/loader.cpp:71-73 | Parses the payload bytes in order, or reports a bad digit |
| HexLoader.Loader.DoRecord | src/loader.cpp:69-98 | The effect of every record type on memory, base address and entry point, with its errors |
| HexLoader.Loader.LoadIhex | src/loader.cpp:44-101 | The line loop: skipping, errors, end record and end of file |
| HexRoundTrip.RecordLoads | src/loader.cpp:61-67 | A printed record passes the checksum and its header reads back |
| HexRoundTrip.ChunkLoads | src/loader.cpp:70-90 | An extended-linear or extended-segment record and a data record set the base and store the chunk |
| HexRoundTrip.BaseRecordLoads | src/loader.cpp:79-90 | A printed type 02 record with s sets the base to 16 s and a printed type 04 record to 65536 s, for every 16-bit s |
| HexRoundTrip.DataRecordLoads | src/loader.cpp:70-76 | A printed data record stores its bytes at base + offset modulo 2^32, or, where they are not mapped, ends the load with an error and stores nothing |
| HexRoundTrip.OtherLines | src/loader.cpp:53-55 | A line without a colon in front is skipped; one with it and under 11 characters is an error |
| HexRoundTrip.UnknownTypeFails | src/loader.cpp:97-98 | A printed record of any other type ends the load with an error |
| HexRoundTrip.DigitSpec | src/loader.cpp:9-15 | A character has the value d if and only if it is the d-th hexadecimal digit in upper or lower case |
| HexRoundTrip.FourBytesIn | src/loader.cpp:91-95 | Four shifted-in bytes replace the whole entry point |
| HexRoundTrip.RoundTrip | src/loader.cpp:44-101 | For every list of mapped chunks of at most 255 bytes, each addressed by a 32-bit address or by a segment and an offset, mixed freely: printing and loading stores the chunks in order and returns the start address, with any line endings and whatever follows the end record |
| HexRoundTrip.LastChunkWins | src/loader.cpp:70-90 | Stored in order means: a byte no chunk covers keeps its value, and any other has the one from the last chunk that covers it |
| HexRoundTrip.DamageDetected | src/loader.cpp:9-25 | For every line with a good checksum and any replacement of one byte's two characters: the line still passes if and only if they parse to the old value |
| HexRoundTrip.DamagedLineLoads | src/loader.cpp:53-98 | For every line that passes the checks and any replacement of one byte by characters that do not end a line: it loads as before if and only if they parse to the old value, and otherwise it is rejected and stores nothing |
| HexRoundTrip.DamagedFileRejected | src/loader.cpp:44-101 | In a whole printed file, replace any byte of any record in this way: the file loads as before if the characters parse to the old value, and otherwise the load ends with an error after exactly the chunks before the record |

## Left out

- Context switch mechanics (`ucontext`, stacks, `std::function`, exceptions as such): a method that returns where the source switches stands for the switch, and a task's place says where it goes on.
- Task names and task functions, which no decision depends on.
- Suspending or deleting another task, priority 0xFF, and a clock that wraps: single calls are modelled, the run theorems exclude them because stale wake times and waiter entries break the invariants.
- EventGroups.EventGroupObject.ResumeCheck: asks for a list that is not empty; on an empty one the source takes its 8-bit counter below zero and indexes past the array.
- EventRuns.NobodyWaitsInVain: covers runs in which setters meet nobody who outranks them; `EventRuns.PerformKeeps` shows that condition to be necessary and sufficient for every single call.
- The blocking calls as loops across switches: one method covers one pass, and the run theorems put the passes together.
- Fairness among waiters of equal priority, which removal by swapping does not give, and priority inheritance.
- The 64-bit wrap-around of cycle and step counters, and the trace callback of the processor.
- Threads, locks and atomics as such: thread steps, pushes, drains and counter updates are atomic actions in any order; wall time is dropped.
- SPI register decoding and the receive queue, UART, CAN, I2C and the peripheral bus.
- Opening and reading files, raw binaries, the disassembler, the command line and the demos. The HEX loader gets the lines that reading the file yields.
- HEX lines that end inside a byte or a payload: the source reads past the terminator there, the model sees terminators.
