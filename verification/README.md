# StarryX in Dafny

A verified model of the parts of the StarryX kernel whose correctness rests on
invariants that span several functions. Each module models one mechanism, as
the code has it, and proves what the mechanism is for; where the code does not
meet a promise, a concrete run or input shows it and the condition under which
it does is proved.

`dafny verify dfyconfig.toml` checks the whole project.

## What is modelled

**Blocking and wakeup (`TaskModel`, `TaskPlacement`, `TimeoutCare`, `TimedWaits`, `TimeoutRace`,
`BlockedTasks`, `TaskJourneys`, `TaskCalls`).**
Tasks, ready queues, wait queues, timer events and CPUs as a step system, with
any number of each. Accesses of shared words are steps of their own, so that other
CPUs can come between them; only setting the alarm, taking the queue's lock and
blocking in wait_timeout, and reading the flag, leaving the queue and expiring the
ticket in cancel_events, are joined into one step. On any number of CPUs a task is
placed in exactly one place, and each time it blocks it is made ready by one
exchange and queued by one insertion. A task that has blocked runs again only after
that exchange, and until then is within reach of its wakers; on one CPU the waker is
what the task waits for. On any number of CPUs wait_timeout and sleep_until never lose
their timeout; wait_timeout_until loses it exactly when it blocks a task whose
event is spent and whose callback is over, which cannot happen before its
deadline, nor on one CPU. `TimeoutRace` gives a run on two CPUs that loses one.

**The sleeping mutex (`SleepMutex`, `MutexWakers`, `StrandedRuns`, `MutexCalls`).** A step
system of its own, with wakeups from other queues and from timers, each in two
steps, and any number of them under way. The mutex excludes on any number of
CPUs, also while its holder waits in another queue. Its queue is exact as long as no
such wakeup reaches, late, a task that waits for the mutex; a waiter is stranded exactly by a notify that is spent on an
entry left behind. If no task returns from a wait while a waker has it in hand,
nothing of this happens; one CPU ensures that, because wakers run with interrupts
off, and so does the absence of timers on any number. Otherwise a late notifier, or a
late timer callback alone, can strand a waiter, and both runs are given.

**The cache manager (`CacheLifecycle`, `CacheShutdown`, `WritebackRotation`).** Operation
permits behind a double-checked flag race a one-shot shutdown that has to drain and
flush once. The shutdown ends in every fair run; without fairness a notify_all can
go on for ever, and that run is given. Writeback goes round the mappings without starving one.

**Frames and address spaces (`PageTables`, `FrameOwnership`, `Protection`).** A
frame's count is the number of `Frame` handles plus the number of Alloc leaves,
over all address spaces, at all times and on error paths. Range operations
check first and then change; a protection transaction keeps a journal and
undoes it backwards.

**The process tree (`ProcessTree`).** Parent links and children maps, zombies,
and the search for the process that takes in orphans.

**A fast form and a simple form (`SeekableDisk`, `Cfs`).** The buffered disk is a
flat array of bytes with one cursor. The fair scheduler picks the least virtual
runtime, and its clocks stay within a bound of each other.

**Layouts and texts (`UserStack`, `IpText`, `IpMixed`, `IpPrinted`, `IpParser`).** The first stack image
of a program is decoded by an independent reader. IP addresses are read back from
the first two text forms of section 2.2 of RFC 4291; of the third, with dotted
octets at the end (`IpMixed`), the parser reads exactly the IPv4-mapped addresses.

**Tables (`SharedMemory`, `FutexTable`, `MessageQueue`).** Attachment maps kept in
two places, futex entries that live as long as their guards, and message queues
with selectors.

## Assumptions

- Atomics are sequentially consistent; the orderings of the source are not modelled.
- The page table is a map from page to leaf, with the level-by-level lookup proved
  equal to it; the page allocator is a set of free pages. TLB flushes have no effect here.
- Allocation failures, the allocator's choice of a page, the clock, what a mapping writes
  and the address space's choice of an address are parameters. The block device is a
  RAM disk, whose only errors are lengths and ranges it does not have.
- Operations on the process tree, the address spaces, the message queues and the
  shared-memory manager are single operations, one after another. Where the source gives up
  a lock in the middle of a system call (shmdt), the two halves are separate operations.
- Integers are unbounded unless a width matters: frame counts (32 bits), attachment counts
  (16 bits), addresses and message selectors (64 bits) and IP groups carry theirs. `abs`
  of the least selector and the increment of a full attachment count wrap, as they do in a
  build without overflow checks; a build with them panics at both.

## Model

| member | source | states |
|---|---|---|
| TaskPlacement.StepPlaced | xcore/xtask/src/run_queue.rs:252-507 | every step of every CPU (yield, preempt, pick, switch, block, notify, timer, exit, spawn) keeps the invariant that gives each task one owner: a CPU that runs it, a ready queue, a waker that won its exchange, a CPU that picked it, or nobody |
| TaskPlacement.InitPlaced | xcore/xtask/src/run_queue.rs:670-712 | the invariant holds at boot for any number of CPUs and tasks |
| TaskPlacement.RunPlaced | xcore/xtask/src/run_queue.rs:252-507 | the invariant holds in every state of every run |
| TaskPlacement.PlacementOverRuns | xcore/xtask/src/run_queue.rs:473-507 | in every state of every run no task is current on two CPUs or in two ready queues or twice in one, a queued task is Ready and not idle, the number of blocks equals the number of won exchanges plus the block under way, insertions follow exchanges one to one, and a waker inserts only when `on_cpu` is clear |
| TaskPlacement.PickedIsReady | xcore/xtask/src/run_queue.rs:511-533 | the assertion of `resched` holds: the task picked is Ready |
| TaskPlacement.ContextKept | xcore/xtask/src/run_queue.rs:536-590 | a CPU gives up a task's stack only in the step that clears its `on_cpu` |
| TaskPlacement.StepClaimed | xcore/xtask/src/run_queue.rs:661-669 | in every step, a task whose `on_cpu` is set still has a CPU that uses its stack |
| TaskPlacement.RunClaimed | xcore/xtask/src/run_queue.rs:661-669 | the same in every state of every run |
| TaskPlacement.SpinEnds | xcore/xtask/src/run_queue.rs:484-500 | the spin on `on_cpu` is never a deadlock: another CPU is leaving the task, its next step is enabled, and each such step brings it closer to clearing the flag |
| TimeoutCare.CareLasts | xcore/xtask/src/timers.rs:23-60 | on any number of CPUs, once a blocked task has a pending event with its ticket and deadline, or a callback about to exchange its state, it has one or the other until it is unblocked, whatever step is taken |
| TimeoutCare.StepTimedCared | xcore/xtask/src/wait_queue.rs:137-155 | every step, on any number of CPUs, keeps every task blocked in wait_timeout or sleep_until cared for in that sense |
| TimeoutCare.TimedNeverLost | xcore/xtask/src/run_queue.rs:428-440 | so these two calls never lose a timeout in any run |
| TimeoutCare.StepAllCared | xcore/xtask/src/wait_queue.rs:163-194 | a step keeps every blocked task with a deadline cared for if and only if it is not wait_timeout_until blocking a task nobody cares for |
| TimeoutCare.TimeoutsExactly | xcore/xtask/src/wait_queue.rs:163-194 | over a run, no timeout is lost up to a state exactly when no such step was taken before it |
| TimeoutCare.StepAhead | xcore/xtask/src/timers.rs:39-60 | until the deadline of a wait_timeout_until its event is pending, whatever the task does |
| TimeoutCare.InTimeNeverLost | xcore/xtask/src/wait_queue.rs:177-190 | if every wait_timeout_until blocks before its deadline, no timeout is lost, on any number of CPUs |
| TimeoutCare.CaredNotOverdue | xcore/xtask/src/timers.rs:47-60 | once every due event has fired and every callback is through, no task that is cared for is past its deadline |
| TimedWaits.StepTimed | xcore/xtask/src/wait_queue.rs:84-194 | on one CPU every step keeps: a task that has checked the clock is armed, tickets are distinct, an event with its task's ticket belongs to a wait with that deadline, and queues hold exactly the flagged tasks |
| TimedWaits.RunTimed | xcore/xtask/src/wait_queue.rs:84-194 | the same in every state of every run on one CPU |
| TimedWaits.OneCpuBlocksCared | xcore/xtask/src/wait_queue.rs:177-190 | on one CPU wait_timeout_until never blocks a task nobody cares for |
| TimedWaits.TimeoutNeverLost | xcore/xtask/src/wait_queue.rs:163-194 | on one CPU every task blocked with a deadline is cared for, in every state of every run: the case of the exact condition in which the failing step cannot be taken |
| TimedWaits.StaleEventIgnored | xcore/xtask/src/timers.rs:23-37 | on one CPU a callback about to exchange a task's state goes back to the firing of an event in one step of the run, and that event to the step in which the task began a wait it has not left since; the event's deadline had passed when it fired |
| TimedWaits.WaitQueueExact | xcore/xtask/src/wait_queue.rs:60-80 | a wait queue holds a task once if it is flagged and waits there, and otherwise not at all |
| TimedWaits.NoOverdueWaiter | xcore/xtask/src/timers.rs:47-60 | once a timer interrupt has fired every due event, no blocked task is past its deadline |
| TimeoutRace.TimeoutLostOnTwoCpus | xcore/xtask/src/wait_queue.rs:177-190 | a run on two CPUs that ends with a task blocked past its deadline, no event pending anywhere and no wakeup under way, so that nobody cares for it |
| BlockedTasks.StepUnblocks | xcore/xtask/src/run_queue.rs:252-276 | a blocked task is unblocked in a step if and only if the step is a waker winning the exchange of its state |
| BlockedTasks.BlockedUntilWoken | xcore/xtask/src/run_queue.rs:400-440 | over every run, on any number of CPUs: a task that blocked in some step and is not Blocked later had such a winner in between, and was Blocked until then |
| BlockedTasks.ReturnsAfterWakeup | xcore/xtask/src/wait_queue.rs:82-187 | so wait, wait_timeout and sleep_until return only after a wakeup of their task, and the other two if they blocked |
| BlockedTasks.RunsAgainBySwitch | xcore/xtask/src/run_queue.rs:290-440 | a task that blocked, yielded or exited is Running again only after a switch to it |
| BlockedTasks.WakerComesFrom | xcore/xtask/src/wait_queue.rs:199-209 | on any number of CPUs a CPU about to make that exchange has popped the task from a queue whose lock it still holds, or fired an event with its ticket, and done nothing since |
| BlockedTasks.WokenOnOneCpu | xcore/xtask/src/wait_queue.rs:82-187 | on one CPU the wakeup comes from what the task waits for: a notify that popped it from the queue it waits in, for wait and wait_until always, or the event of its own wait, at or after its deadline |
| BlockedTasks.StepReachable | xcore/xtask/src/wait_queue.rs:199-209 | every step keeps every task blocked in a queue wait within reach: in the queue, about to push itself, or in the hands of a waker |
| BlockedTasks.WithinReach | xcore/xtask/src/wait_queue.rs:199-209 | the same in every state of every run, on any number of CPUs, so no notify can miss a waiter for good |
| BlockedTasks.NothingLeftBehind | xcore/xtask/src/wait_queue.rs:59-80 | on one CPU a task that has returned from its wait is flagged no more and in no queue, and no pending event carries its ticket |
| TaskJourneys.TasksExactly | xcore/xtask/src/run_queue.rs:238-250 | the tasks are those of the boot and those spawned since, and none is lost |
| TaskJourneys.RunsWhereQueued | xcore/xtask/src/run_queue.rs:473-534 | a task that was woken, spawned or yielded runs next on the CPU whose ready queue it was put into |
| TaskJourneys.ExitedForever | xcore/xtask/src/run_queue.rs:360-398 | a task that has exited stays so and never runs again |
| TaskJourneys.ExitedLeavesItsCpu | xcore/xtask/src/run_queue.rs:360-398 | once it has called resched, no CPU executes it |
| TaskCalls.WaitCall | xcore/xtask/src/wait_queue.rs:84-87 | wait, uninterrupted, can be made on every unlocked queue and leaves the caller Blocked at its end, the lock free, nothing else changed |
| TaskCalls.UntilCall | xcore/xtask/src/wait_queue.rs:94-110 | wait_until with a false condition does the same |
| TaskCalls.TimedCall | xcore/xtask/src/wait_queue.rs:136-157 | wait_timeout does the same with a new ticket and its event |
| TaskCalls.TimedUntilCall | xcore/xtask/src/wait_queue.rs:165-193 | wait_timeout_until before its deadline does the same |
| TaskCalls.SleepCall | xcore/xtask/src/run_queue.rs:428-440 | sleep_until leaves the caller Blocked in no queue, with its event |
| TaskCalls.ReturnCall | xcore/xtask/src/wait_queue.rs:59-80 | cancel_events takes every entry of the caller out of the queue if it is still flagged, and expires the ticket of a timed wait |
| Queues.WithoutConcat | xcore/xtask/src/wait_queue.rs:64-66 | the entries that stay in the queue keep their order |
| TaskCalls.NotifyCall | xcore/xtask/src/wait_queue.rs:199-209 | notify_one, uninterrupted, takes the first task out of the queue, makes it Ready, and puts it into the ready queue of the chosen CPU |
| TaskCalls.LateNotifyCall | xcore/xtask/src/wait_queue.rs:199-209 | if that task is not Blocked only its entry and flag go |
| TaskCalls.FireCall | xcore/xtask/src/timers.rs:24-36 | a due event with the current ticket does the same, and is gone |
| TaskCalls.StaleFireCall | xcore/xtask/src/timers.rs:24-36 | one with another ticket is dropped, and nothing else happens |
| TaskCalls.YieldCall | xcore/xtask/src/run_queue.rs:290-307 | a yield leaves the task Ready in the queue of its own CPU |
| TaskCalls.IdleYieldCall | xcore/xtask/src/run_queue.rs:473-509 | the idle task enters no queue |
| TaskCalls.SwitchCall | xcore/xtask/src/run_queue.rs:511-598 | a picked task is Running and off the ready queue, and the one before is let go |
| TaskCalls.SameTaskCall | xcore/xtask/src/run_queue.rs:536-545 | picking the task that was there lets it go on |
| TaskCalls.SpawnCall | xcore/xtask/src/run_queue.rs:238-250 | a new task is Ready in the queue of the chosen CPU |
| TaskCalls.ExitCall | xcore/xtask/src/run_queue.rs:360-398 | a task that exits is Exited, in no queue, and its CPU picks another |
| SleepMutex.MutualExclusion | xcore/xsync/src/mutex.rs:33-77 | two tasks inside the critical section, running or waiting in some other queue while they hold the mutex, are the same task, the one the owner word names, in every run on any number of CPUs |
| SleepMutex.StepExclusive | xcore/xsync/src/mutex.rs:33-77 | every step keeps "inside the critical section exactly if named by the owner word" |
| SleepMutex.StepQueue | xcore/xtask/src/run_queue.rs:400-425 | a step keeps the mutex's queue exact, each task blocked in it there once and no other, if and only if it is not a waker from elsewhere winning the exchange on a task that waits for the mutex |
| SleepMutex.QueueExactly | xcore/xtask/src/run_queue.rs:400-425 | over a run the queue is exact in all states up to one exactly when no such exchange was made before it |
| SleepMutex.StepNotStranded | xcore/xsync/src/mutex.rs:33-77 | a step strands a waiter if and only if it is a notify that pops the entry of a task not waiting for the mutex, while another waits and nobody else is in the lock loop or owes a notify |
| SleepMutex.StrandedExactly | xcore/xsync/src/mutex.rs:33-77 | over a run no waiter is stranded up to a state exactly when no such notify was made before it |
| SleepMutex.NoStrandedWaiter | xcore/xsync/src/mutex.rs:52-53 | in every run without late exchanges, on any number of CPUs, whenever the mutex is free while a task is blocked in its queue, an unlocker still owes its notify or a task in the lock loop will look again |
| MutexWakers.StepCalm | xcore/xtask/src/wait_queue.rs:277-284 | a step keeps every other queue exact and every waker's task in the wait it was woken from, if and only if it is not a return of a task that a waker has in hand; in such states no exchange is late |
| MutexWakers.PromptStrandsNobody | xcore/xsync/src/mutex.rs:33-77 | so runs without such returns strand nobody, on any number of CPUs |
| MutexWakers.OneCpuIsPrompt | xcore/xtask/src/wait_queue.rs:201-209 | on one CPU there are no such returns: a notifier, under a queue's lock, and a timer callback, in the timer interrupt, have interrupts off, the CPU then turns to no other code, and the code goes on to its exchange |
| MutexWakers.NoTimersIsPrompt | xcore/xtask/src/wait_queue.rs:277-284 | nor are there any without timers, on any number of CPUs |
| StrandedRuns.StrandedByNotifier | xcore/xtask/src/wait_queue.rs:277-284 | a run in which every timer callback is quick and a late notifier of another queue strands a waiter of the free mutex |
| StrandedRuns.StrandedByTimer | xcore/xtask/src/timers.rs:23-37 | a run in which every notifier is quick and a late timer callback does the same |
| MutexCalls.OwnerExactly | xcore/xsync/src/mutex.rs:33-77 | over every run the owner word names a task exactly if it has taken the mutex, by lock or try_lock, and not unlocked it since |
| MutexCalls.TryLockCall | xcore/xsync/src/mutex.rs:59-66 | try_lock on a free mutex takes it for the caller |
| MutexCalls.LockCall | xcore/xsync/src/mutex.rs:33-57 | so does lock |
| MutexCalls.LockWaits | xcore/xsync/src/mutex.rs:33-57 | lock on a held mutex leaves the caller Blocked at the end of its queue |
| MutexCalls.UnlockCall | xcore/xsync/src/mutex.rs:68-77 | unlock frees the mutex and wakes the first waiter |
| MutexCalls.WokenTries | xcore/xsync/src/mutex.rs:33-57 | a woken waiter that finds the mutex free tries again, and takes its entries along if it is still flagged |
| MutexCalls.OtherWaitCall | xcore/xtask/src/wait_queue.rs:94-110 | a wait in another queue leaves the task Blocked at its end, holding the mutex if it did |
| MutexCalls.OtherAgain | xcore/xtask/src/wait_queue.rs:94-110 | and blocks again when its condition is still false |
| CacheLifecycle.StepSides | xmodules/xcache/src/manager.rs:315-376 | every step keeps one shutdown thread, one worker, and the stage each has reached in each phase of the lifecycle |
| CacheLifecycle.StepPermits | xmodules/xcache/src/manager.rs:392-404 | every step keeps the counter equal to the number of threads, the worker in its maintenance among them, between counting themselves and giving the count back, and no holder after a drain |
| CacheLifecycle.StepNoMissedNotify | xmodules/xcache/src/manager.rs:450-462 | every step keeps: a waiter of `active_wait` whose condition is true has a notifier on its way |
| CacheLifecycle.RunInv | xmodules/xcache/src/manager.rs:315-404 | the three invariants hold in every state of every run |
| CacheLifecycle.NoPermitAfterDrain | xmodules/xcache/src/manager.rs:378-404 | from the moment a drain has seen zero active operations, no thread holds a permit, ever again |
| CacheLifecycle.OneShutdown | xmodules/xcache/src/manager.rs:343-376 | the thread that cleared the flag is the only one that ever acts for shutdown |
| CacheLifecycle.OneFlush | xmodules/xcache/src/manager.rs:378-390 | the flush runs at most once, only after the drain, and exactly once by the time a result is there or the manager is closed; the `expect` on the result never fails |
| CacheLifecycle.NoLostWakeup | xmodules/xcache/src/manager.rs:293-312 | no thread stays blocked with its condition true unless a notify is on its way; the worker is asleep in a closing manager only while the shutdown thread is still rousing it |
| CacheLifecycle.ShutdownNeverStuck | xmodules/xcache/src/manager.rs:343-376 | while a shutdown is under way, some thread other than the worker's timer can take a step |
| CacheLifecycle.AcceptingExactly | xmodules/xcache/src/manager.rs:343-347 | the manager accepts exactly until a shutdown clears the flag |
| CacheLifecycle.PermitExactly | xmodules/xcache/src/manager.rs:392-404 | a thread that saw the manager accepting counts itself, looks again, and then holds a permit exactly if no shutdown has cleared the flag by then; otherwise it gives the count back |
| CacheLifecycle.PermitReturned | xmodules/xcache/src/manager.rs:392-404 | its next step gives back the permit, or the count, and lowers the counter by one |
| CacheLifecycle.RefusedOnlyWhenClosed | xmodules/xcache/src/manager.rs:392-404 | no thread is refused while the manager accepts |
| CacheShutdown.StepRank | xmodules/xcache/src/manager.rs:315-404 | once the flag is cleared no step raises the rank of a state, and every step lowers it but those by which a waiter looks in vain, queues itself or is woken too early, and the idle worker's |
| CacheShutdown.StuckStep | xmodules/xcache/src/manager.rs:315-404 | if no step of a shutdown under way can lower the rank, any step leads to where one can, or frees a queue's lock, so that the next one does |
| CacheShutdown.ShutdownEnds | xmodules/xcache/src/manager.rs:343-376 | in every run that makes progress again and again if it can, a shutdown that has cleared the flag closes the manager |
| CacheShutdown.Livelock | xmodules/xcache/src/manager.rs:392-404 | an endless run that never closes it: the worker, refused a permit, notifies the shutdown thread, which looks for the worker's result and queues itself again, for ever |
| WritebackRotation.RotationOnce | xmodules/xcache/src/manager.rs:194-199 | the order of one call has every mapping, and none twice |
| WritebackRotation.PivotFollows | xmodules/xcache/src/manager.rs:193-197 | resuming behind a mapping begins at the next one, or at the first after the last |
| WritebackRotation.PivotExactly | xmodules/xcache/src/manager.rs:194-197 | for any resume point the scan begins at the first mapping behind it, or at the first of all if there is none |
| WritebackRotation.Writeback.WritebackInner | xmodules/xcache/src/manager.rs:189-207 | a call visits a prefix of the rotation, remembers the last mapping served, writes exactly the pages of those visited up to the budget, and stops early only for a failure or a spent budget |
| WritebackRotation.AllServed | xmodules/xcache/src/manager.rs:189-207 | any chain of calls that each serve something, as long as there are mappings, serves every mapping |
| WritebackRotation.Writeback.Calls | xmodules/xcache/src/manager.rs:189-207 | successful calls with positive budgets are such a chain |
| PageTables.QueryFinds | crates/page_table_multiarch/page_table_multiarch/src/bits64.rs:138-145 | a query finds a leaf exactly when the address lies in it |
| PageTables.GetEntryIsQuery | crates/page_table_multiarch/page_table_multiarch/src/bits64.rs:454-479 | the walk by levels, largest pages first, finds the same leaf as the query, for every address |
| PageTables.MapKeepsOk | crates/page_table_multiarch/page_table_multiarch/src/bits64.rs:63-76 | an aligned page that overlaps nothing keeps the leaves disjoint, aligned and inside the address range |
| PageTables.Walk | crates/page_table_multiarch/page_table_multiarch/src/bits64.rs:577-622 | a walk yields every leaf it is given once, in ascending order |
| PageTables.WithPagesExactly | xcore/xmm/src/aspace.rs:158-166 | mapping a range adds exactly one leaf for each page of it, onto consecutive frames, and leaves the others as they were |
| FrameOwnership.PteFlagsMeaning | xcore/xmm/src/aspace.rs:17-29 | stored flags carry the kind, have the no-access mark exactly when they give no access, and otherwise are the flags asked for; the only refusal is write-only on RISC-V |
| FrameOwnership.FreeExactly | xcore/xmm/src/frame.rs:168-199 | a page of the allocator's pool is free exactly when no handle and no leaf names it |
| FrameOwnership.LeafInstalled | xcore/xmm/src/frame.rs:292-296 | moving a handle into a new leaf keeps every count equal to handles plus leaves |
| FrameOwnership.LeafTaken | xcore/xmm/src/frame.rs:330-333 | turning a removed leaf back into a handle keeps it too |
| FrameOwnership.HandleAdded | xcore/xmm/src/frame.rs:64-70 | one more handle and one more count keep it |
| FrameOwnership.HandleDropped | xcore/xmm/src/frame.rs:72-80 | one less of each keeps it, and at the last one nothing names the frame and it is not already free |
| FrameOwnership.FrameClaimed | xcore/xmm/src/frame.rs:58-62 | a page the allocator hands out has count zero, so the assertion of `allocate_zeroed` holds |
| FrameOwnership.SoleOwner | xcore/xmm/src/frame.rs:308-318 | a count of one under an Alloc leaf means that this leaf is the only owner, and conversely |
| FrameOwnership.NewLeafExactly | xcore/xmm/src/aspace.rs:184-200 | the checks of `map_frame` pass exactly for a page in range that meets no leaf, with acceptable flags and no paging failure |
| FrameOwnership.ValidRangeExactly | xcore/xmm/src/aspace.rs:125-134 | a range is valid exactly if it is not empty, made of whole pages, and all its addresses lie in the space |
| FrameOwnership.ReplacementExactly | xcore/xmm/src/aspace.rs:202-235 | the checks of `replace_frame` pass exactly when the page holds a 4 KiB Alloc leaf of the expected frame and the flags are acceptable |
| FrameOwnership.RemovableExactly | xcore/xmm/src/aspace.rs:237-270 | while counts are right, a preflight fails only for a leaf that sticks out, of the wrong kind or size; never for the frame's metadata |
| FrameOwnership.ReferencesDropped | xcore/xmm/src/aspace.rs:273-300 | removing the leaves of a range lowers each count by the number of its leaves in the range |
| FrameOwnership.CountsDetermined | xcore/xmm/src/frame.rs:175-178 | handles and leaves determine all counts |
| FrameOwnership.Memory.constructor | xcore/xmm/src/frame.rs:115-157 | all counts start at zero with every pool page free |
| FrameOwnership.Memory.Allocate | xcore/xmm/src/frame.rs:185-199 | a page with metadata leaves the free set with count one and one handle; any other goes back and nothing changes |
| FrameOwnership.Memory.Clone | xcore/xmm/src/frame.rs:336-346 | one more handle and count, or a refusal exactly when the count is full |
| FrameOwnership.Memory.Drop | xcore/xmm/src/frame.rs:348-352 | one handle and count less; the page goes free exactly with the last one |
| FrameOwnership.Memory.CloneFromPte | xcore/xmm/src/frame.rs:299-305 | a handle for a live frame; errors exactly for a frame outside memory, released, or with a full count |
| FrameOwnership.Memory.MapFrame | xcore/xmm/src/aspace.rs:184-200 | success exactly under the conditions above, with one new leaf and no count changed; on an error the leaves stay and the frame's reference is given up |
| FrameOwnership.Memory.ReplaceFrame | xcore/xmm/src/aspace.rs:202-235 | success exactly under the conditions above, with that one leaf changed; the replacement's handle is consumed in every case and no count goes wrong |
| FrameOwnership.Memory.Preflight | xcore/xmm/src/aspace.rs:237-270 | the number of leaves met, all acceptable; or the error of the highest leaf that is not |
| FrameOwnership.Memory.UnmapRange | xcore/xmm/src/aspace.rs:273-300 | all or nothing: an error changes no leaf, count or free page; success removes exactly the leaves of the range and one reference per Alloc leaf; success exactly when the range is valid and its leaves are of the kind and size |
| FrameOwnership.Memory.MapStaticRange | xcore/xmm/src/aspace.rs:136-182 | all or nothing, with the rollback after a failure half way; success exactly when the input is acceptable, the range is clear and no page fails; counts never move |
| FrameOwnership.Memory.RollBack | xcore/xmm/src/aspace.rs:167-178 | undoing the pages installed so far gives back the table as it was |
| FrameOwnership.Memory.NewSpace | xcore/xmm/src/aspace.rs:73-79 | a new empty space, exactly when the range does not overflow and a root table can be had |
| FrameOwnership.Memory.DropSpace | xcore/xmm/src/aspace.rs:653-666 | the check for Alloc leaves in the space's own range is enough: no reference is lost |
| FrameOwnership.Memory.FrameIfShared | xcore/xmm/src/aspace.rs:358-370 | None exactly when the leaf is the frame's only owner; otherwise a new handle to the leaf's frame, or an error exactly when the count is full or there is no Alloc leaf |
| FrameOwnership.Memory.MappedFrames | xcore/xmm/src/aspace.rs:373-408 | one handle and one record per Alloc leaf met, in order, with the access asked for; success exactly if every leaf met is an Alloc leaf and no frame's count would pass its limit by one more reference for each of its leaves; on an error all handles are given back and nothing has changed |
| Protection.Transaction.constructor | xcore/xmm/src/aspace.rs:60-66 | a transaction begins with an empty journal and remembers its space |
| Protection.Transaction.Prepare | xcore/xmm/src/aspace.rs:526-549 | one journal entry per leaf of the walk, or the journal as it was |
| Protection.Transaction.ProtectRange | xcore/xmm/src/aspace.rs:506-561 | an error changes nothing; success gives exactly the leaves of the range their chosen flags and stays undoable; success exactly when range, leaves, expected number, reservation and flags are acceptable |
| Protection.Transaction.ProtectAllocRangeWith | xcore/xmm/src/aspace.rs:580-594 | the flags given to a leaf are those for "only owner" exactly when it is its frame's only owner, with the exact condition for success |
| Protection.Transaction.Finish | xcore/xmm/src/aspace.rs:627-641 | dropped without commit, the space is as it was at the beginning, whatever happened to other spaces since; committed, its table is the first one with the effects of the successful calls applied in order; other spaces stay as they are |
| Protection.FinishBeside | xcore/xmm/src/aspace.rs:627-641 | the end of one transaction leaves a transaction on another space valid |
| Protection.UndoRedo | xcore/xmm/src/aspace.rs:632-639 | undoing a list of fresh changes behind an earlier journal gives what the earlier journal alone gives |
| Protection.RedoIsApplied | xcore/xmm/src/aspace.rs:551-559 | carrying out the prepared changes one by one is applying the call's effect at once |
| Protection.LastCallWins | xcore/xmm/src/aspace.rs:505-641 | after any calls with overlapping ranges a leaf has the flags of the last call covering it |
| Protection.UncoveredKept | xcore/xmm/src/aspace.rs:505-641 | and its own flags when none does |
| Protection.Reflagged | xcore/xmm/src/aspace.rs:551-559 | changing a leaf's access within its kind keeps every count right |
| ProcessTree.ReachesInit | xmodules/xprocess/src/process.rs:217-245 | every process has init as its last ancestor, and is not its own ancestor |
| ProcessTree.ReaperExactly | xmodules/xprocess/src/process.rs:225-244 | the orphans of a process go to its parent if that is init or a live subreaper, and otherwise where its parent's would go |
| ProcessTree.AdoptedConserves | xmodules/xprocess/src/process.rs:235-240 | reparenting loses no process and moves exactly the children of the one that exits |
| ProcessTree.Processes.constructor | xmodules/xprocess/src/process.rs:281-292 | the tree of init alone is well formed |
| ProcessTree.Processes.Fork | xmodules/xprocess/src/process.rs:295-353 | links and children maps stay inverse; no zombie has children afterwards exactly when none had before and the parent is not a zombie |
| ProcessTree.Processes.SetChildSubreaper | xmodules/xprocess/src/process.rs:75-77 | only the flag changes |
| ProcessTree.Processes.Exit | xmodules/xprocess/src/process.rs:217-245 | the process becomes a zombie without children; all its children, and no others, go to its nearest ancestor that is a live subreaper, or to init |
| ProcessTree.Processes.FindReaper | xmodules/xprocess/src/process.rs:225-244 | the upward search ends, at the nearest ancestor that reaps, which is alive |
| ProcessTree.Processes.Adopt | xmodules/xprocess/src/process.rs:235-239 | the loop over the children comes to reparenting all of them |
| ProcessTree.Processes.Free | xmodules/xprocess/src/process.rs:250-256 | a zombie leaves its parent's map and nothing else changes |
| ProcessTree.ForkFromZombie | xmodules/xprocess/src/process.rs:295-353 | three calls that leave a zombie with a child |
| SeekableDisk.BlockDevice.ReadBlock | drivers/xdriver_block/src/ramdisk.rs:55-65 | whole blocks inside the device are read exactly; anything else is refused |
| SeekableDisk.BlockDevice.WriteBlock | drivers/xdriver_block/src/ramdisk.rs:67-77 | whole blocks inside the device replace its bytes there; anything else is refused |
| SeekableDisk.Disk.constructor | xcore/xfs/src/disk.rs:38-52 | a new disk is the device's bytes with the cursor at zero |
| SeekableDisk.Disk.Position | xcore/xfs/src/disk.rs:65-67 | block and offset are the cursor of the flat array |
| SeekableDisk.Disk.SetPosition | xcore/xfs/src/disk.rs:70-75 | moves the cursor and changes no byte |
| SeekableDisk.Disk.Flush | xcore/xfs/src/disk.rs:78-84 | clears the dirty flag without changing the flat content or the cursor |
| SeekableDisk.Disk.ReadPartial | xcore/xfs/src/disk.rs:86-101 | the bytes under the cursor up to the end of the block, and the cursor past them |
| SeekableDisk.Disk.Read | xcore/xfs/src/disk.rs:104-123 | fills the buffer with the flat array's bytes and moves the cursor past them, exactly when they are all on the disk; on an error the cursor is past the bytes already read |
| SeekableDisk.Disk.WritePartial | xcore/xfs/src/disk.rs:125-143 | replaces the bytes under the cursor up to the end of the block |
| SeekableDisk.Disk.Write | xcore/xfs/src/disk.rs:146-165 | replaces the bytes under the cursor and moves it past them, exactly when they fit; on an error exactly a prefix has been written |
| Cfs.TickBound | xmodules/xsched/src/cfs.rs:43-63 | at every nice value one tick moves a clock forward by at most 69 |
| Cfs.RateIs | xmodules/xsched/src/cfs.rs:22-63 | at every nice value, as many ticks as its weight in the table move the clock by 1024 |
| Cfs.NicerIsSlower | xmodules/xsched/src/cfs.rs:43-63 | the same ticks never move the clock of a lower nice value further |
| Cfs.CloseMeansProportional | xmodules/xsched/src/cfs.rs:43-63 | clocks within a bound of each other mean ticks in proportion to the weights, up to that bound |
| Cfs.SpreadMeansFair | xmodules/xsched/src/cfs.rs:43-63 | so for every two of a set of tasks |
| Cfs.CfsTask.SetPriority | xmodules/xsched/src/cfs.rs:71-77 | the clock keeps its value across a change of rate |
| Cfs.CfsTask.Tick | xmodules/xsched/src/cfs.rs:83-86 | a tick is counted and the clock advances by at most 69 |
| Cfs.Scheduler.AddTask | xmodules/xsched/src/cfs.rs:129-143 | the clock starts at the recorded minimum; queued keys stay right exactly when the task brings no clock of its own |
| Cfs.Scheduler.RemoveTask | xmodules/xsched/src/cfs.rs:145-159 | takes what is filed under the task's present key, which is the task itself while keys are right |
| Cfs.Scheduler.PickNext | xmodules/xsched/src/cfs.rs:161-167 | while keys are right, the task with the least clock, the one queued first if there are several, which leaves the queue |
| Cfs.Scheduler.PutPrev | xmodules/xsched/src/cfs.rs:169-174 | files the task under its present clock and a new id; keys stay right |
| Cfs.Scheduler.TaskTick | xmodules/xsched/src/cfs.rs:176-183 | charges the running task only; a reschedule is asked for exactly when somebody waits and the clock has passed the recorded minimum |
| Cfs.Scheduler.SetPriority | xmodules/xsched/src/cfs.rs:185-192 | accepts exactly the nice range and never moves a clock, so queued keys stay right |
| Cfs.Turn | xmodules/xsched/src/cfs.rs:161-183 | the least clock runs, its ticks are charged to it alone, and afterwards no two clocks are more than 69 times the turn length apart |
| Cfs.Turns | xmodules/xsched/src/cfs.rs:161-183 | so after any number of turns with any priority changes |
| Cfs.FairRun | xmodules/xsched/src/cfs.rs:129-183 | the bound holds from fresh tasks on, and, if no priority changes, any two tasks have had ticks x and y in proportion to their weights v and w: 1024 times the difference of x * w and y * v is at most (69 * d + 1) * v * w |
| Cfs.RunUntilAsked | xmodules/xsched/src/cfs.rs:176-183 | up to the first tick that asks for a reschedule, and while somebody waits, the running clock moves by at most 69, and not at all if none asks |
| Cfs.PromptTurn | xmodules/xsched/src/cfs.rs:161-183 | so a turn of any number of ticks that ends when a reschedule is asked for keeps all clocks within 69 of each other and at or above the recorded minimum |
| Cfs.PromptRun | xmodules/xsched/src/cfs.rs:129-183 | and so does every run of such turns from fresh tasks on, with any priority changes; without any, shares are in proportion to the weights with 70 in place of 69 * d + 1 |
| Cfs.Join | xmodules/xsched/src/cfs.rs:129-143 | a fresh task that joins later keeps a bound exactly when the recorded minimum is within it of every clock |
| Cfs.LateStart | xmodules/xsched/src/cfs.rs:129-143 | for every n, a run in which a fresh task starts n behind, because the recorded minimum does not follow the clocks |
| UserStack.LeRoundTrip | crates/kernel_elf_parser/src/user_stack.rs:52-57 | little-endian bytes read back as the number |
| UserStack.Stack.PushWords | crates/kernel_elf_parser/src/user_stack.rs:52-57 | pushing a slice backwards leaves it forwards in memory |
| UserStack.Stack.PushStr | crates/kernel_elf_parser/src/user_stack.rs:58-63 | the address returned leads to the string and its zero |
| UserStack.Stack.PushStrings | crates/kernel_elf_parser/src/user_stack.rs:76-83 | every pointer leads to its own string, and what lay above is untouched |
| UserStack.PatchAuxv | crates/kernel_elf_parser/src/user_stack.rs:103-110 | exactly the two entries that point into the image change |
| UserStack.Align | crates/kernel_elf_parser/src/user_stack.rs:87-100 | the padding makes the tables still to come end on a multiple of 16, whatever their number |
| UserStack.PushTables | crates/kernel_elf_parser/src/user_stack.rs:111-127 | the words from the stack pointer on are argc, argv, a zero, envp, a zero and the vector |
| UserStack.InitStack | crates/kernel_elf_parser/src/user_stack.rs:69-130 | the stack pointer is a multiple of 16, the header is there, and every pointer of it leads to its own string inside the image |
| UserStack.RandomText | crates/kernel_elf_parser/src/user_stack.rs:72-74 | the sixteen bytes AT_RANDOM leads to are the text 0123456789abcdef |
| UserStack.CStringExactly | crates/kernel_elf_parser/src/user_stack.rs:58-63 | a string reads back exactly when it holds no zero byte |
| UserStack.DecodesBack | crates/kernel_elf_parser/src/user_stack.rs:69-130 | an image so laid out decodes to argc, argv, envp and the vector exactly when no string holds a zero byte and the vector ends with its first AT_NULL entry |
| UserStack.AppStackRegion | crates/kernel_elf_parser/src/user_stack.rs:149-159 | the same for the image built for a stack region and any vector, whose random bytes and program name are where the vector says |
| UserStack.NoVector | crates/kernel_elf_parser/src/user_stack.rs:149-159 | without a vector the image is built and does not decode back, for all arguments |
| IpText.NumberRead | crates/smoltcp/src/parsers.rs:109-125 | every spelling of a group, with any case and leading zeros, is read as its value up to where the digits stop |
| IpText.FullText | crates/smoltcp/src/parsers.rs:163-281 | groups without a double colon are read as the address exactly when there are eight of them, despite the attempts at dotted forms before and between |
| IpText.CompressedText | crates/smoltcp/src/parsers.rs:163-281 | groups with a double colon are an address exactly when neither side has more than six and both no more than eight; zeros fill the gap |
| IpText.ZeroRunText | crates/smoltcp/src/parsers.rs:163-281 | so every text of groups with "::" for two or more zero groups, the second form of section 2.2 of RFC 4291, is read back |
| IpText.ColonsForNothing | crates/smoltcp/src/parsers.rs:249-281 | a text the code accepts although "::" stands for no group |
| IpText.NoSingleGroup | crates/smoltcp/src/parsers.rs:163-246 | "::" for a first or last single group is refused, for all groups |
| IpText.DottedText | crates/smoltcp/src/parsers.rs:283-297 | four dotted octets are read as an IPv4 address |
| IpMixed.MixedText | crates/smoltcp/src/parsers.rs:192-205 | groups and dotted octets without a double colon are an address exactly when the groups are 0:0:0:0:0:ffff, in any spelling, and then the IPv4-mapped one |
| IpMixed.CompressedMixedText | crates/smoltcp/src/parsers.rs:206-218 | with a double colon they are an address exactly when at most five groups stand before it, all zero, and ffff alone behind it |
| IpMixed.CompatibleRefused | crates/smoltcp/src/parsers.rs:206-231 | "::13.1.68.3", an example in section 2.2 of RFC 4291, is refused |
| IpPrinted.DigitIs | crates/smoltcp/src/parsers.rs:96-107 | each character of 0-9, a-f and of 0-9, A-F has its place as its value; in decimal only the first ten |
| IpPrinted.NoOtherDigit | crates/smoltcp/src/parsers.rs:96-107 | no other character is a digit |
| IpPrinted.PrintedRead | crates/smoltcp/src/parsers.rs:72-79 | every IPv6 address printed in full, in small or in capital letters, is read back |
| IpPrinted.PrintedShortRead | crates/smoltcp/src/parsers.rs:72-79 | so is every one printed with "::" for two or more zero groups |
| IpPrinted.DottedRead | crates/smoltcp/src/parsers.rs:283-292 | every IPv4 address printed in dotted form is read back |
| IpPrinted.MappedRead | crates/smoltcp/src/parsers.rs:151-160 | "::ffff:" with dotted octets gives the mapped address, the first octet of each pair in the high byte |
| IpPrinted.LinkLocal | crates/smoltcp/src/parsers.rs:72-79 | "fe80::1" is fe80:0:0:0:0:0:0:1 |
| IpParser.Parser.AcceptNumber | crates/smoltcp/src/parsers.rs:109-125 | the digit loop, with the cursor set back behind the last digit, agrees with the grammar |
| IpParser.Parser.AcceptOctets | crates/smoltcp/src/parsers.rs:283-292 | the octet loop agrees with the grammar |
| IpParser.Parser.TryMapped | crates/smoltcp/src/parsers.rs:151-160 | a dotted part gives two groups, or the cursor is where it was |
| IpParser.Parser.AcceptParts | crates/smoltcp/src/parsers.rs:163-246 | the recursion ends, never leaves the two arrays, and fills them as the grammar says |
| IpParser.Parser.AcceptIpv6 | crates/smoltcp/src/parsers.rs:249-281 | head, zeros and tail are put together as the grammar says |
| IpParser.Parser.AcceptIp | crates/smoltcp/src/parsers.rs:300-316 | IPv4 first, then IPv6 from the same place |
| IpParser.Parse | crates/smoltcp/src/parsers.rs:72-79 | for every text the parser gives what the grammar gives, so all the text theorems are about the parser |
| SharedMemory.InsertInverse | xmodules/xutils/src/collections/btreemap.rs:26-33 | an insertion keeps the two maps inverse and evicts exactly the key that had the value |
| SharedMemory.AttachedCount | xkernel/src/ipc/shm.rs:158-167 | the counter follows an attachment exactly below 65535 attached processes |
| SharedMemory.DetachedCount | xkernel/src/ipc/shm.rs:170-179 | and follows every detachment |
| SharedMemory.ShmManager.Get | xkernel/src/syscall/ipc/shm.rs:49-90 | the result is the one segment with the key if there is one, a mismatch being refused, or a new one; the index goes on naming, for each key that is not private, the one segment that has it |
| SharedMemory.ShmManager.Create | xkernel/src/ipc/shm.rs:246-253 | a new segment without attachments keeps both sides in agreement, and the index right when its key is new or private |
| SharedMemory.ShmManager.MarkRemoved | xkernel/src/syscall/ipc/shm.rs:215-219 | marks one segment and no more |
| SharedMemory.ShmManager.Attach | xkernel/src/syscall/ipc/shm.rs:144-186 | refused exactly for a missing segment or one already attached; afterwards the process has the segment at exactly the range given and lists it at its start, all other ranges, keys and marks being as before; both sides agree exactly when the process did not list the address already, and the counters are right exactly when fewer than 65535 were attached |
| SharedMemory.ShmManager.Detach | xkernel/src/syscall/ipc/shm.rs:233-265 | both sides drop the attachment at the address, which exists exactly when the process lists it, and nothing else changes but the counter; a process that lists nothing more is gone; reports whether the segment is to go |
| SharedMemory.ShmManager.RemoveShmid | xkernel/src/ipc/shm.rs:345-357 | both sides agree afterwards exactly when nobody was attached |
| SharedMemory.ShmManager.Cleanup | xkernel/src/ipc/shm.rs:378-399 | removes exactly the segments marked for removal and without attachments, and counts them |
| SharedMemory.ShmManager.DetachProcess | xkernel/src/ipc/shm.rs:332-342 | the process is attached nowhere afterwards, the others where they were, and exactly the marked segments it was the last in, or that nobody was in, are gone |
| SharedMemory.ShmManager.AttachAll | xkernel/src/ipc/shm.rs:295-307 | all are attached, or what was attached is taken back: every attachment is as before, and the segments with their counters are exactly when no counter among them stood at 65535 |
| SharedMemory.AllJoinedIs | xkernel/src/ipc/shm.rs:295-307 | the loop leaves each item's segment with the child at the item's range, and all other ranges, keys and marks as they were |
| SharedMemory.ShmManager.Inherit | xkernel/src/ipc/shm.rs:264-315 | an error leaves every attachment as it was, and from a valid state the counters too; success attaches the child to exactly the parent's segments at the parent's ranges, with counters right exactly when each of them had fewer than 65535 attached; success exactly when the child lists nothing yet and memory can be reserved |
| SharedMemory.InheritExactly | xkernel/src/ipc/shm.rs:264-315 | after the two loops the child has each of the parent's segments at exactly the parent's range and the parent's map, all else being as before, and both sides agree |
| SharedMemory.InheritCounts | xkernel/src/ipc/shm.rs:295-307 | after an inheritance the counters are right exactly when each segment of the parent had room for one more |
| SharedMemory.RemovalRace | xkernel/src/syscall/ipc/shm.rs:262-272 | an attachment between the two locked sections of shmdt leaves a process listing a segment that is gone |
| SharedMemory.SameAddress | xkernel/src/ipc/shm.rs:256-261 | a second segment at a listed address leaves the first attached but unlisted |
| FutexTable.StepOk | xkernel/src/task/futex.rs:71-118 | every step keeps: a live guard's entry is the one the table has for its key |
| FutexTable.RunOk | xkernel/src/task/futex.rs:71-118 | the same in every state of every run |
| FutexTable.SameEntry | xkernel/src/task/futex.rs:71-118 | in every run all live guards of a key hold one entry, the one a lookup finds |
| FutexTable.GuardsExactly | xkernel/src/task/futex.rs:71-118 | over every run a guard that was given out and not released since is there with the key it was asked for, leaving exactly if its drop has begun, and there are no others |
| FutexTable.WaitersExactly | xkernel/src/task/futex.rs:107-118 | the tasks waiting on an entry are those that began to wait there and were not woken |
| FutexTable.DecideTight | xkernel/src/task/futex.rs:107-118 | dropping a guard leaves no unused entry behind exactly unless all other guards of the entry are in the middle of being dropped |
| FutexTable.StepTight | xkernel/src/task/futex.rs:71-118 | a step leaves an entry without guard and waiter in the table if and only if it is such a drop |
| FutexTable.TightExactly | xkernel/src/task/futex.rs:71-118 | over a run every entry is in use in all states up to one exactly when no such drop was made before it |
| FutexTable.EmptyAtRest | xkernel/src/task/futex.rs:71-118 | without such drops the table is empty once all guards and waiters are gone |
| FutexTable.OverlappingDrops | xkernel/src/task/futex.rs:107-118 | a run of two guards dropped at once that leaves an entry nobody uses |
| MessageQueue.FindExactly | xkernel/src/ipc/msg.rs:162-192 | the index found is the first match, of the least type for a negative selector; none exactly when nothing matches |
| MessageQueue.FindsFirstOfType | xkernel/src/ipc/msg.rs:162-192 | so it is the first message of its own type, whatever the selector |
| MessageQueue.SelectsExactly | xkernel/src/ipc/msg.rs:179-190 | the selection is the one msgrcv promises exactly when the selector is not LONG_MIN, the queue is empty, or it holds a message of type LONG_MIN |
| MessageQueue.LongMinFindsNone | xkernel/src/ipc/msg.rs:179-190 | a message of type 1 is asked for by the selector LONG_MIN and not found |
| MessageQueue.TakeFirst | xkernel/src/ipc/msg.rs:143-150 | taking it out keeps the order of every type and the byte count right |
| MessageQueue.MsgQueue.Send | xkernel/src/ipc/msg.rs:119-132 | appends exactly when queue and message limits allow; for every type, received then queued messages remain those sent, in order, and both counters match the queue |
| MessageQueue.MsgQueue.Receive | xkernel/src/ipc/msg.rs:134-160 | for every selector takes out exactly the message found, or reports the right error; the same invariant |

## Left out

- Orders weaker than sequential consistency, TLB shoot-down and architecture code.
- CPU affinity, migration tasks, `WaitQueue::requeue` and the task garbage collector.
- A wake of the cache worker by dirty pages may happen at any time; its epochs are not modelled.
- The mutex's step system is smaller than that of `TaskModel`: scheduling is left out, a notify of the mutex's own queue, made under its lock, is one step, and so are blocking in another queue and returning from it.
- MutexWakers.PromptStrandsNobody: the condition is sufficient; the exact one for a stranded waiter is in `SleepMutex.StrandedExactly`.
- CacheLifecycle.ShutdownNeverStuck: some thread can always move; that the shutdown ends is `CacheShutdown.ShutdownEnds`, and needs a fair schedule.
- Page contents: `process_bytes`, reads and writes through an address space, copy-on-write copies.
- `copy_static_mappings_from`, `protect_static_range` and the single-page protection calls, which only add arguments to what is modelled.
- Page tables are not modelled as memory: intermediate tables, and the failure of a walk behind a successful preflight, do not occur.
- Cache pages and their dirty and persisted bookkeeping; what one mapping writes is a parameter, and `reclaim_clean` is not modelled.
- ProcessTree.Processes.Exit: races between concurrent calls, which take the locks of several processes one by one, are not modelled.
- Sessions, process groups, threads and exit codes; process ids stand for process identities and are never reused.
- Cfs.FairRun: a closed set of fresh tasks; what a later task does to the bound is `Cfs.Join`.
- Overflow of `isize` clocks, `u64` block numbers and the ticket counter.
- SeekableDisk.Disk.Flush: a write error of the device cannot occur on the RAM disk that is modelled.
- FrameOwnership.FreeExactly: other users of the page allocator are not in the account; its pool is what it lends to frames.
- ProcessTree.Processes.Free: other references that keep a freed process alive are not modelled.
- UserStack.AppStackRegion: assumes that the image fits below the top, and arguments when the vector asks for the program name, where the source would panic.
- Socket addresses, CIDR blocks and Ethernet addresses, which use the same parser methods.
- Truncation of received messages and permission checks of System V IPC; `IPC_SET`, which lets the caller overwrite the attachment counter.
- SharedMemory.ShmManager.Attach: the mapping of the pages themselves and its failure are left to the address space.
- Semaphore sets, allocators, drivers, file systems, sockets and system-call dispatch.
