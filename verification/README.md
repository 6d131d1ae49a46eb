# Verified model of the Xbox kernel HLE and its support layers

This project models the part of the emulator in which a guest program's threads
meet: the cooperative fiber scheduler (`src/cpu_sched.cpp`) and, on top of it, the
kernel's events, mutants, semaphores, multi-object waits and critical sections
(`src/xbox_krnl.cpp`). Around it stand five smaller cores: the contiguous-memory pool
with the page bits and CPU mappings that must follow it, the FILETIME calendar
conversion, the asynchronous file-to-memory queue, the vertex-shader decoder and
interpreter, and the XBE loader, plus the kernel's handle table.

`dafny verify dfyconfig.toml` checks everything.

## How it is laid out

Between two context switches exactly one party runs: the host, the scheduler loop, or
one fiber. A kernel call is atomic up to the point where it blocks, so a run is a
sequence of steps: a call, the rest of a call whose fiber was woken, or one iteration
of `run_until_complete`. What is left of a blocked call is kept as a resume point,
which stands for the machine context that `swapcontext` saves.

| file | contents |
|---|---|
| `Scheduler.dfy`, `SchedulerRuns.dfy` | scheduler primitives as functions; deadlock verdicts, join cycles, exact virtual time and fairness over every run |
| `SchedulerObject.dfy` | `GuestScheduler` as an object whose methods loop over the thread table, proved equal to the functions |
| `Tokens.dfy` | the 64-bit numbers of the wait channels never collide |
| `Kernel.dfy` | dispatcher objects, waits, signalling calls, critical sections: one function per atomic segment |
| `WakeLaws.dfy` | whom a signal wakes, in which order |
| `KernelObject.dfy` | `XboxKrnl` as an object, proved equal to those functions, with what each method does to the fields spelled out |
| `WaitInvariant.dfy`, `WaitProofs.dfy`, `WaitSteps.dfy`, `KernelRuns.dfy` | the wake-up invariant, that every step keeps it, and what follows for runs |
| `History.dfy`, `HistoryRuns.dfy` | accounts computed from the call history alone; the objects' fields agree with them |
| `Trace.dfy`, `CallEffects.dfy` | the history is exactly the trace of the calls; the status of single waits, notification events and section ownership over runs |
| `MultiWait.dfy`, `TimedWaits.dfy`, `LateWaits.dfy` | all-or-nothing and timeouts over whole waits, and where the source's promises stop |
| `AbandonReports.dfy`, `OrphanSections.dfy` | what the death of a fiber leaves behind: mutants reported once, sections owned for good |
| `TimeFields.dfy` | FILETIME conversion against a day-by-day calendar |
| `Ram.dfy`, `FirstFit.dfy`, `CpuMap.dfy`, `Pool.dfy` | page bits, first-fit search, interval subtraction, and their agreement |
| `IoQueue.dfy`, `IoQueueRuns.dfy`, `IoQueueTheorems.dfy`, `IoQueueMemory.dfy`, `IoQueueGate.dfy`, `IoQueueObject.dfy` | the queue's steps, their invariant, the header's promises, memory byte by byte, the submit gate and its notifications, the object |
| `BitFields.dfy`, `ShaderCode.dfy`, `ShaderProgram.dfy`, `Shader.dfy`, `ShaderLaws.dfy`, `ShaderObject.dfy` | microcode fields, decoder and encoder, programs, interpreter, what slots and programs compute |
| `Loader.dfy`, `XbeParse.dfy`, `Handles.dfy` | file view against memory view; which files parse; the handle table |

## What the model asks of callers

The code does not check these; the theorems assume them, and each assumption is a
predicate in the model.

- Deadlines stay below the 64-bit sentinel (`DeadlineFits`), and thread stacks can be allocated.
- Critical sections are used by fibers, and after they were initialised. An object or section is not closed or initialised again while a fiber waits on it (`KernelRuns.Allowed`). A call on a section that was never initialised reads whatever words are in memory; the functions of `Kernel.dfy` and the methods of `KernelObject.dfy` cover that case, the run theorems do not.
- For the ownership and conservation results (`HistoryRuns.Careful`): `KeReleaseMutant` is called on an owned mutant, a wait-all set names no object twice, and a semaphore set up by `KeInitializeSemaphore` starts within its limit.
- For unique tags alone (`IoQueueTheorems.FreshTag`): callers that are inside `enqueue_wait` at the same time use different tags. The other results about the queue hold for every run.
- The memory pool starts above address 0, which mm_alloc uses to mean refused, and ends within the 64 MiB window.

## What was found

Where a property that the source or its comments suggest fails, there is an input on
which it fails and the exact condition under which it holds.

- `KeReleaseMutant` on a free mutant raises SignalState to 2, so two fibers can own it: `HistoryRuns.FreeMutantReleased` is a run that gets there, `HistoryRuns.KeReleaseNeedsAnOwner` the condition.
- A multi-object wait is not all-or-nothing for the host, which cannot own a mutant. A wait-all on a free mutant and a semaphore takes the semaphore, leaves the mutant, and returns 0x80 (`MultiWait.HostWaitAllTakesPart`); a wait-any returns the mutant's position and takes nothing (`MultiWait.HostWaitAnyTakesNothing`). What the status claims is what was acquired exactly when the caller is a fiber or no mutant is among the claimed objects: `MultiWait.EvalIsAllOrNothing`.
- A wait-all set that names a semaphore twice takes two units for one check, and the count can become negative: `MultiWait.RepeatedSemaphoreExample` is a run; it stays non-negative exactly when the set names it at most count times: `MultiWait.RepeatedSemaphoreIsTakenRepeatedly`.
- A timed wait can outlive its timeout: a woken fiber that finds its object, or its set, not satisfied blocks again for the whole timeout, in `wait_dispatch` and in `wait_multiple` alike. For events, mutants and semaphores, waited on alone, for any or for all, some run makes the wait late exactly when it is not a wait on one event: `LateWaits.OutlivesExactly`, with the runs in `LateWaits.WaitOutlivesItsTimeout`. A wait ends at its first wake-up, and so within its timeout, exactly when it timed out, waits on one event, or is satisfied then (`TimedWaits.TimedWaitEndsExactly`); others last at most one timeout per wake-up.
- A critical section, unlike a mutant, is not abandoned: an exit orphans exactly the sections the fiber owns (`OrphanSections.ExitOrphansExactly`), and whoever is blocked on one stays blocked for good (`OrphanSections.OrphanIsForever`). `OrphanSections.OwnerExitsInside` is a run that gets there.
- A relative interval of 2^32 milliseconds or more is cut to 32 bits; delays are exact exactly below that: `TimeFields.RelativeDelayIsExactBelow32Bits`.
- Requests start without a submit: the source says that new requests wait for the next submit gate, but one that arrives while the gate is open is started by it. `IoQueueGate.LateRequestStarts` is a run in manual mode whose only submit comes before the request. A started request saw the gate open after it was pushed exactly when the gate was closed then: `IoQueueGate.SubmittedBeforeStartExactly`.
- A full request queue can have no worker step at all: with auto-submit off (`IoQueueTheorems.ManualModeCanStall`), and also with auto-submit on again, if it was switched on over a full closed queue (`IoQueueTheorems.AutoSubmitCanComeTooLate`). Auto-submit on from the start is sufficient for a worker step: `IoQueueTheorems.FullQueueFreesASlot`.
- Two callers that wait on a full queue with one tag are both let in: `IoQueueTheorems.DuplicateTagRun` is a run that ends with two requests of one tag. A step keeps tags unique exactly when it does not admit a caller whose tag is already there: `IoQueueTheorems.TagsStayUniqueExactly`.
- A section placed inside the header block can make the loader's two views differ: `XbeParse.SectionInHeadersDisagrees` gives a file, `Loader.ViewsAgreeExactly` the condition.
- The copy of the header block reads beyond the end of a file shorter than `sizeof_headers`, which parsing allows: `XbeParse.ShortFileIsOverread` gives a file, `Loader.FailsExactly` the condition.
- A zero fill stores to a read-only page when an earlier section ended on the same page and made it read-only: `XbeParse.SharedPageFaults` gives a file, `Loader.FailsExactly` and `Loader.SectionFaultsExactly` the condition.
- The MAC ADD operation is decoded, checked and run as if it had no operand A (`src/xbox_vs.cpp:15-23`): `Shader.AddIgnoresOperandA`. The model follows the code.
- The header of the scheduler says that a signal does not wake an expired waiter. `signal` does not look at deadlines; the statement holds because the loop never leaves an expired waiter blocked: `SchedulerRuns.BlockIsExact`.

## Model

| member | source | states |
|---|---|---|
| `SchedulerObject.GuestScheduler.SpawnThread` | src/cpu_sched.cpp:58-89 | a reserve that leaves less than 16 KiB of stack is refused with 0 and changes nothing; otherwise a fresh Ready thread is appended and its place, counted from 1, is its handle |
| `SchedulerObject.GuestScheduler.Signal` | src/cpu_sched.cpp:169-180 | the scan wakes the first waiter in spawn order, or all of them, and returns how many it woke |
| `SchedulerObject.GuestScheduler.WakeJoiners` | src/cpu_sched.cpp:208-214 | the in-place pass readies exactly the joiners whose target is finished or unknown |
| `SchedulerObject.GuestScheduler.WakeSleepers` | src/cpu_sched.cpp:215-220 | the pass readies exactly the sleepers that are due |
| `SchedulerObject.GuestScheduler.TimeOutWaiters` | src/cpu_sched.cpp:221-230 | the pass readies exactly the waiters that are due and marks them timed out |
| `SchedulerObject.PassesAreRefresh` | src/cpu_sched.cpp:207-230 | the three passes, each over what the previous left, equal one simultaneous update |
| `SchedulerObject.GuestScheduler.FindReady` | src/cpu_sched.cpp:231-240 | the scan from the cursor finds the Ready thread that comes first in round-robin order |
| `SchedulerObject.GuestScheduler.PickNext` | src/cpu_sched.cpp:207-241 | wakes what is due, then picks in round-robin order and moves the cursor past the pick |
| `SchedulerObject.GuestScheduler.AllDone` | src/cpu_sched.cpp:245-252 | true exactly when every thread is Finished |
| `SchedulerObject.GuestScheduler.Reasons` | src/cpu_sched.cpp:273-283 | whether some thread has a deadline, and whether some thread waits or joins without one |
| `SchedulerObject.GuestScheduler.RunOnce` | src/cpu_sched.cpp:243-293 | one iteration of the loop ends as the transition function says: completed, dispatched, clock advanced by one, or deadlock; and only then does the mode, the clock or the flag change |
| `SchedulerObject.GuestScheduler.ThreadYield` | src/cpu_sched.cpp:133-136 | the caller becomes Ready and the loop runs; no other thread, nor the clock, changes |
| `SchedulerObject.GuestScheduler.ThreadSleep` | src/cpu_sched.cpp:138-148 | the caller sleeps until tick + n and the loop runs; zero ticks are a yield; nothing else changes |
| `SchedulerObject.GuestScheduler.ThreadBlock` | src/cpu_sched.cpp:158-167 | the caller waits on the token with an absolute deadline, or none for timeout zero, and the loop runs; nothing else changes |
| `SchedulerObject.GuestScheduler.JoinThread` | src/cpu_sched.cpp:296-307 | a self-join, a bad handle or a finished target returns at once and changes nothing; otherwise the caller is BlockedJoin on the target, the loop runs, and nothing else changes |
| `Scheduler.SliceKeepsInv` | src/cpu_sched.cpp:133-180 | whatever host or fiber code does between two switches, by spawning, waking and parking, keeps the scheduler's invariant |
| `Scheduler.IterateKeepsInv` | src/cpu_sched.cpp:243-293 | one iteration of the loop keeps the invariant, so no deadline is ever passed over |
| `SchedulerRuns.RunKeepsInv` | src/cpu_sched.cpp:243-307 | the invariant holds in every state of every run of every program |
| `SchedulerRuns.CallsAreSlices` | src/cpu_sched.cpp:133-167 | the scheduler's own blocking calls are among the slices the theorems quantify over |
| `SchedulerRuns.SignalsAreSlices` | src/cpu_sched.cpp:169-180 | so are spawning and signalling |
| `SchedulerRuns.VerdictIsExact` | src/cpu_sched.cpp:243-293 | in every run: true is returned exactly when all threads are finished, deadlock exactly when every unfinished thread waits forever or joins an unfinished one, and the last return is never reached |
| `SchedulerRuns.PureJoinDeadlockHasCycle` | src/cpu_sched.cpp:284-307 | a deadlock without waits contains a cycle of joins |
| `SchedulerRuns.CycleIsForever` | src/cpu_sched.cpp:207-214 | a thread on a join cycle is never Ready and never runs again |
| `SchedulerRuns.SleepIsExact` | src/cpu_sched.cpp:138-148 | a sleep of n ticks resumes exactly n ticks later |
| `SchedulerRuns.BlockIsExact` | src/cpu_sched.cpp:150-180 | a timed wait reports its timeout exactly at the deadline and a signal strictly before it, never both |
| `SchedulerRuns.JoinIsExact` | src/cpu_sched.cpp:296-307 | in every run, a join on another thread returns only when that thread has finished |
| `SchedulerRuns.EachPickComesCloser` | src/cpu_sched.cpp:231-240 | each dispatch that passes a Ready thread over lowers its round-robin distance from the cursor |
| `SchedulerRuns.ReadyRunsWithinOneRound` | src/cpu_sched.cpp:231-240 | with n threads and no spawns, a Ready thread is passed over by fewer than n dispatches |
| `Tokens.CodesNeverCollide` | src/xbox_krnl.cpp:50-60 | channel numbers fit 64 bits and, among live objects, sections, multi-waits and delays, are equal exactly for the same channel |
| `KernelObject.XboxKrnl.SignalUnits` | src/xbox_krnl.cpp:490-491 | stopping at the first signal that finds nobody is the same as sending all of them |
| `WakeLaws.SignalManyWakesFirst` | src/cpu_sched.cpp:169-180 | n signals wake exactly the n waiters whose fibers were spawned first |
| `WakeLaws.WakeObjectServes` | src/xbox_krnl.cpp:489-498 | wake_object serves the first units of the single waiters, in spawn order, and touches no other fiber outside multi-object waits |
| `WakeLaws.EventServes` | src/xbox_krnl.cpp:584-601 | setting or pulsing a notification event wakes all its waiters, a synchronization event the first one |
| `KernelObject.XboxKrnl.Wake` | src/xbox_krnl.cpp:489-498 | wakes up to the given units of single waiters, then every registered multi-wait fiber, and empties the list |
| `KernelObject.XboxKrnl.DispatcherAcquire` | src/xbox_krnl.cpp:388-419 | takes a unit: a synchronization event is reset, a notification event is not, a semaphore loses one, a mutant gets the caller as owner; abandonment is reported and cleared; the host is refused a mutant |
| `KernelObject.XboxKrnl.WaitDispatch` | src/xbox_krnl.cpp:422-432 | satisfied: acquire and return 0, 0x80 for an abandoned mutant, or 0xC000000D for a mutant from the host; immediate: STATUS_TIMEOUT; host: refused; otherwise block on the object's channel with the deadline |
| `KernelObject.XboxKrnl.ResumeDispatch` | src/xbox_krnl.cpp:432-442 | after a wake-up: STATUS_TIMEOUT, success for an event without another look, or evaluation again |
| `KernelObject.XboxKrnl.AcquireSet` | src/xbox_krnl.cpp:455-461 | takes every object of the set in order; the status names the first abandoned one |
| `KernelObject.XboxKrnl.RegisterSet` | src/xbox_krnl.cpp:477-478 | adds the fiber to the list of every object that does not satisfy it |
| `KernelObject.XboxKrnl.Erase` | src/xbox_krnl.cpp:481-482 | erase-remove takes out every occurrence and keeps the order of the rest |
| `KernelObject.XboxKrnl.DeregisterSet` | src/xbox_krnl.cpp:480-483 | takes the fiber off the lists of the whole set |
| `KernelObject.XboxKrnl.FindSatisfied` | src/xbox_krnl.cpp:451-466 | the first object of the set that is satisfied, or the first that is not |
| `KernelObject.XboxKrnl.WaitMultiple` | src/xbox_krnl.cpp:444-479 | one evaluation of a wait-all or wait-any, up to its return or its block |
| `KernelObject.XboxKrnl.ResumeMultiple` | src/xbox_krnl.cpp:479-487 | after a wake-up: deregister, then time out or evaluate again |
| `KernelObject.XboxKrnl.KeSetEvent` | src/xbox_krnl.cpp:584-601 | a notification event wakes all and stays set; a synchronization event wakes the first waiter or stays set; the list is emptied, no other object changes, the previous state is returned |
| `KernelObject.XboxKrnl.NtPulseEvent` | src/xbox_krnl.cpp:1229-1241 | wakes all waiters or the first, leaves the event reset, empties the list and returns the previous state |
| `KernelObject.XboxKrnl.KeResetEvent` | src/xbox_krnl.cpp:603-608 | the event is reset, nobody is woken, nothing else changes, and the previous state is returned |
| `KernelObject.XboxKrnl.ReleaseOwned` | src/xbox_krnl.cpp:1322-1329 | SignalState rises by one; at 1 the owner is cleared and one waiter woken; the previous count is returned |
| `KernelObject.XboxKrnl.NtReleaseMutant` | src/xbox_krnl.cpp:1313-1332 | a release by anybody but the owner is refused and changes nothing; otherwise the previous count is returned |
| `KernelObject.XboxKrnl.KeReleaseMutant` | src/xbox_krnl.cpp:1370-1385 | any mutant is released, whoever owns it, and the previous count returned |
| `KernelObject.XboxKrnl.AddUnits` | src/xbox_krnl.cpp:1411-1417 | the count rises by the adjustment and the first that many single waiters are served |
| `KernelObject.XboxKrnl.KeReleaseSemaphore` | src/xbox_krnl.cpp:1405-1422 | refused, with nothing changed, exactly for a non-positive adjustment, a count beyond the limit, or another kind of object; otherwise the count rises, that many waiters are served and the previous count is returned |
| `KernelObject.XboxKrnl.FinishThread` | src/xbox_krnl.cpp:513-532 | the fiber is Finished and exactly the mutants it owns become free and abandoned, each waking one waiter |
| `KernelObject.DeathLaw` | src/xbox_krnl.cpp:513-532 | the pass changes no object but those mutants and no fiber but blocked ones |
| `KernelObject.XboxKrnl.CsEnter` | src/xbox_krnl.cpp:698-724 | whatever words the section holds: re-entry adds one level, a free section gets the caller as owner at level one, a contended one gets one more waiter and the caller blocks without deadline; an unreadable section is refused; no other section changes |
| `KernelObject.XboxKrnl.CsLeave` | src/xbox_krnl.cpp:726-746 | only the owner leaves; one level less, or the section is free and the first waiter woken, if the lock count says there is one; no other section changes |
| `KernelObject.XboxKrnl.CsTryEnter` | src/xbox_krnl.cpp:748-763 | enters exactly when the section is readable and free or already the caller's: then the caller owns it, one level deeper, with the same lock count; otherwise nothing changes |
| `WaitInvariant.SignalManyAddsPending` | src/xbox_krnl.cpp:489-498 | if waiters remain after the signals, each signal put one fiber on its way |
| `WaitInvariant.SignalEachUnblocks` | src/xbox_krnl.cpp:492-497 | every fiber on a multi-wait list is Ready after the list is signalled |
| `WaitProofs.WakeObjectKeeps` | src/xbox_krnl.cpp:489-498 | a change that adds at most the units it wakes keeps the wake-up invariant |
| `WaitProofs.SetEventKeeps` | src/xbox_krnl.cpp:584-601 | so does setting an event |
| `WaitProofs.ReleaseMutantKeeps` | src/xbox_krnl.cpp:1313-1332 | and releasing a mutant |
| `WaitProofs.ReleaseSemaphoreKeeps` | src/xbox_krnl.cpp:1405-1422 | and releasing a semaphore |
| `WaitProofs.BlockManyKeeps` | src/xbox_krnl.cpp:474-479 | and blocking in a multi-object wait, registered where it is not satisfied |
| `WaitSteps.ResumeOneKeeps` | src/xbox_krnl.cpp:432-442 | and coming back from a single wait, whoever won the race |
| `WaitSteps.ResumeManyKeeps` | src/xbox_krnl.cpp:479-487 | and coming back from a multi-object wait |
| `WaitSteps.EnterKeeps` | src/xbox_krnl.cpp:698-724 | and entering a critical section, on the call and on every retry |
| `WaitSteps.LeaveKeeps` | src/xbox_krnl.cpp:726-746 | and leaving one |
| `WaitSteps.ExitKeeps` | src/xbox_krnl.cpp:513-532 | and the death of a fiber |
| `KernelRuns.RunKeeps` | src/xbox_krnl.cpp:369-532 | the wake-up invariant holds in every state of every run |
| `KernelRuns.MultiWaitersAreUnsatisfied` | src/xbox_krnl.cpp:444-498 | a fiber blocked in a multi-object wait is never satisfied, in any reachable state |
| `KernelRuns.SatisfiedWaiterHasCompetitor` | src/xbox_krnl.cpp:421-442 | a blocked single waiter can be satisfied only while a woken fiber is on its way to the same object |
| `KernelRuns.NoLostWakeups` | src/xbox_krnl.cpp:369-498 | whenever no fiber is Ready, no blocked fiber would succeed if it looked again, for events, mutants, semaphores, any, all and sections |
| `KernelRuns.KernelRunsAreSchedulerRuns` | src/cpu_sched.cpp:133-307 | every kernel run is a run of the scheduler, so its theorems hold of it |
| `KernelRuns.DeadlocksAreReal` | src/cpu_sched.cpp:284-291 | at every reported deadlock all unfinished threads are stuck and no blocked fiber could have gone on |
| `KernelRuns.DelayIsExact` | src/xbox_krnl.cpp:1095-1112 | a delay of n ticks resumes exactly n ticks later, because nobody signals its token |
| `KernelRuns.JoinWaitsForTheEnd` | src/cpu_sched.cpp:296-307 | the same in every run of the kernel |
| `KernelRuns.RelativeDelayIsExact` | src/xbox_krnl.cpp:888-907 | a relative delay of -q units below 2^32 ms resumes exactly ceil(-q / 10000) ticks later |
| `HistoryRuns.MutantSafety` | src/xbox_krnl.cpp:388-411 | in every run: owner is 0 exactly when SignalState is 1, the holder's acquisitions minus all releases, whoever made them, are 1 - SignalState, only one handle ever held it at a time, and the owner is an unfinished fiber |
| `HistoryRuns.AbandonedIsReportedOnce` | src/xbox_krnl.cpp:388-411 | the flag that a satisfied wait reports is set exactly when the last change from owned to free was the owner's death, and an acquisition clears it |
| `AbandonReports.EachDeathIsReportedOnce` | src/xbox_krnl.cpp:388-532 | in every run, the fiber waits that returned an abandoned status, plus the flags still to be reported, are never more than the mutants abandoned by a death |
| `AbandonReports.EveryDeathIsReported` | src/xbox_krnl.cpp:388-532 | and exactly as many, in every careful run without closing and without waits for all: no death goes unreported |
| `CallEffects.SingleWaitStatus` | src/xbox_krnl.cpp:388-442 | in every careful run, a wait on one object that finds it notes the acquisition and returns 0x80 exactly for a mutant whose last holder died and that nobody acquired since, 0 otherwise; the host is refused a mutant; a wait that does not find it acquires nothing |
| `HistoryRuns.SemaphoreConservation` | src/xbox_krnl.cpp:1388-1422 | 0 <= count <= limit and count = initial + released - acquired |
| `HistoryRuns.EventConservation` | src/xbox_krnl.cpp:584-601 | for a synchronization event, units put in minus successful waits are the signal plus the woken waiters not yet returned |
| `CallEffects.NotificationIsLit` | src/xbox_krnl.cpp:584-608 | in every run, a notification event is signaled exactly when the last of its sets, clears, pulses and initialisations left it so; waits do not consume it |
| `HistoryRuns.SectionSafety` | src/xbox_krnl.cpp:698-763 | one owner at a time, RecursionCount is the owner's enters minus leaves, LockCount + 1 is the number of blocked fibers, and a free section with blocked fibers has one woken |
| `CallEffects.TryEnterTakes` | src/xbox_krnl.cpp:748-763 | in every run, a try-enter that returns 1 makes the caller owner one level deeper, one that returns 0 changes nothing, and no other section changes |
| `CallEffects.EnterTakes` | src/xbox_krnl.cpp:698-724 | the same of an enter that does not block; one that blocks adds one waiter |
| `CallEffects.LeaveFrees` | src/xbox_krnl.cpp:726-746 | a leave undoes one level; the last one frees the section and wakes the waiter spawned first, exactly if somebody waits |
| `CallEffects.SectionStaysOwned` | src/xbox_krnl.cpp:698-763 | in every run, a section stays with its owner until the owner leaves it, and in between a try-enter by another fiber returns 0 |
| `OrphanSections.OrphanIsForever` | src/xbox_krnl.cpp:698-746 | in every run, once a section's owner has finished, a fiber blocked on it never runs again and the section keeps its owner |
| `OrphanSections.ExitOrphansExactly` | src/xbox_krnl.cpp:513-532 | the exit of a fiber orphans exactly the sections it owns |
| `OrphanSections.OwnerExitsInside` | src/xbox_krnl.cpp:698-724 | a run in which a fiber exits inside a section that another waits for |
| `HistoryRuns.KeReleaseNeedsAnOwner` | src/xbox_krnl.cpp:1370-1385 | a release of a mutant keeps the ownership rule exactly when the mutant was owned |
| `HistoryRuns.FreeMutantReleased` | src/xbox_krnl.cpp:1370-1385 | a run from boot that brings SignalState to 2 |
| `Trace.CallNotes` | src/xbox_krnl.cpp:369-763 | every call notes exactly the acquisitions, releases, entries and statuses that its arguments and the objects call for |
| `Trace.LogIsTheTrace` | src/xbox_krnl.cpp:369-763 | in every run the log is exactly the trace of the calls and their continuations, so the accounts hold of the calls |
| `CallEffects.CreatesExactly` | src/xbox_krnl.cpp:1388-1404 | a creation adds the object it notes and changes nothing else |
| `CallEffects.ClosesExactly` | src/xbox_krnl.cpp:1551-1561 | a close removes the object and changes no other |
| `CallEffects.RefusedChangesNothing` | src/xbox_krnl.cpp:939-944 | a refused call changes nothing |
| `MultiWait.EvalIsAllOrNothing` | src/xbox_krnl.cpp:444-479 | for every caller and every set: an object is acquired exactly when the outcome claims it and it is not a mutant waited on by the host, as often as it is named; the status names the first abandoned mutant; all that is claimed is acquired exactly when the caller is a fiber or no mutant is claimed; an unsatisfied wait changes nothing |
| `MultiWait.TimedOutWaitChangedNothing` | src/xbox_krnl.cpp:444-487 | in every run, a multi-object wait that returns STATUS_TIMEOUT changed no object and acquired nothing in any of its steps, from its call through every wake-up, and is registered nowhere |
| `MultiWait.RegisteredOnlyInside` | src/xbox_krnl.cpp:476-483 | a fiber is on an object's list only while it waits on a set that names the object |
| `MultiWait.RepeatedSemaphoreIsTakenRepeatedly` | src/xbox_krnl.cpp:451-463 | a wait-all takes one unit of a semaphore for every time the set names it |
| `MultiWait.RepeatedSemaphoreExample` | src/xbox_krnl.cpp:451-463 | a run of two host calls in which such a wait succeeds and leaves the count at -1 |
| `MultiWait.HostWaitAllTakesPart` | src/xbox_krnl.cpp:451-463 | a host wait-all on a free mutant and a semaphore takes the semaphore, leaves the mutant and returns 0x80 |
| `MultiWait.HostTakesPartInARun` | src/xbox_krnl.cpp:451-463 | the same at the end of a run of three host calls from boot |
| `MultiWait.HostWaitAnyTakesNothing` | src/xbox_krnl.cpp:464-473 | a host wait-any on the same set returns 0, the mutant's position, and takes nothing |
| `TimedWaits.TimedBlockIsExact` | src/xbox_krnl.cpp:421-487 | in every run, a single or multi-object wait that blocks for n ticks finds its fiber running again at tick a + n exactly if it timed out, and strictly before if it was woken |
| `TimedWaits.TimedWaitEndsExactly` | src/xbox_krnl.cpp:421-487 | and that run ends the call, within the timeout, exactly when it timed out, the wait is on one event, or the wait is satisfied; otherwise the same wait blocks again with a deadline n ticks from then |
| `TimedWaits.EventWaitsKeepTheirTimeout` | src/xbox_krnl.cpp:432-437 | a timed wait on one event returns at its fiber's next run, at most n ticks after the call, with STATUS_TIMEOUT exactly when all n have passed |
| `TimedWaits.WaitsAreBounded` | src/xbox_krnl.cpp:421-487 | a timed wait that has been woken m times is at most m * n ticks old |
| `LateWaits.WaitOutlivesItsTimeout` | src/xbox_krnl.cpp:421-487 | for every sort of object and every form of wait but the wait on one event, a run in which a fiber is still in a wait of 3 ticks when 4 have passed |
| `LateWaits.EventWaitIsNeverLate` | src/xbox_krnl.cpp:432-437 | in no run is a wait on one event still going on after its timeout |
| `LateWaits.OutlivesExactly` | src/xbox_krnl.cpp:421-487 | so a timed wait, single or on a set of one object, can outlive its timeout exactly when it is not a wait on one event |
| `TimeFields.CivilIsExact` | src/xbox_krnl.cpp:77-88 | for every day number the result is a date of the proleptic Gregorian calendar with that day number |
| `TimeFields.CivilInvertsDayNumber` | src/xbox_krnl.cpp:77-88 | civil_from_days inverts the day count on every date |
| `TimeFields.CivilFollowsTheCalendar` | src/xbox_krnl.cpp:77-88 | one day later is the next date of the calendar |
| `TimeFields.YearOfEraIs` | src/xbox_krnl.cpp:81 | the closed form finds the year of the era from any of its days, 29 February included |
| `TimeFields.Epochs` | src/xbox_krnl.cpp:1113-1143 | Unix day 0 is 1970-01-01 and FILETIME day 0 is 1601-01-01 |
| `TimeFields.FieldsAreExact` | src/xbox_krnl.cpp:1113-1143 | for every 64-bit FILETIME all fields are in range and recombine to the time in milliseconds, rounded down, before 1601 too |
| `TimeFields.WeekdayIsCyclic` | src/xbox_krnl.cpp:1113-1143 | the weekday is (days since 1601-01-01 + 1) mod 7 for every time |
| `TimeFields.RelativeDelayIsExactBelow32Bits` | src/xbox_krnl.cpp:63-65 | a relative interval becomes ceil(units / 10000) ticks exactly when that is below 2^32 |
| `Ram.XbeRam.Commit` | src/xbe_loader.cpp:367-380 | commits exactly the pages of the range, making new ones writable, or refuses a range outside the window |
| `Ram.XbeRam.Uncommit` | src/xbe_loader.cpp:382-394 | needs every page committed and then takes exactly those pages out |
| `Ram.XbeRam.ProtectRo` | src/xbe_loader.cpp:396-407 | makes exactly the pages of a committed range read-only |
| `Ram.XbeRam.IsCommitted` | src/xbe_loader.cpp:359-365 | true exactly when every page of the range is committed |
| `Ram.XbeRam.Writable` | src/xbe_loader.cpp:431-439 | true exactly when every page is committed and not read-only |
| `Ram.XbeRam.WriteBytes` | src/xbe_loader.cpp:450-454 | writes all bytes or none |
| `FirstFit.SkipLosesNothing` | src/xbox_krnl.cpp:627-639 | an obstacle of one candidate pushes every later feasible address past its end |
| `FirstFit.AlignUpIsNext` | src/xbox_krnl.cpp:626 | rounding up gives the next aligned address and does not wrap |
| `FirstFit.ScanList` | src/xbox_krnl.cpp:629-636 | the inner loop decides feasibility and the furthest obstacle loses no candidate |
| `FirstFit.Search` | src/xbox_krnl.cpp:626-639 | the scan ends with the lowest feasible address, or with none exactly when none exists |
| `FirstFit.Find` | src/xbox_krnl.cpp:612-639 | the same for a whole request, whatever the order of the list |
| `Pool.MmPool.Alloc` | src/xbox_krnl.cpp:612-656 | grants the lowest feasible address or refuses, with nothing changed, exactly when there is none; the granted bytes are zero, its pages read-only exactly if asked, no other byte or page changes, and the three views still agree |
| `Pool.MmPool.PreparePages` | src/xbox_krnl.cpp:641-650 | commits exactly the pages of the range, zeroes its bytes and makes its pages read-only exactly if asked; nothing else changes |
| `Pool.MmPool.Free` | src/xbox_krnl.cpp:659-675 | true exactly for the start of a live allocation, which leaves all three views |
| `Pool.NoSharedPage` | src/xbox_krnl.cpp:612-656 | live allocations never share a page |
| `Pool.MmPool.MapOnAll` | src/xbox_cpu.cpp:212-214 | every attached CPU gains exactly the pages of the range |
| `Pool.MmPool.UnmapOnAll` | src/xbox_cpu.cpp:216-218 | every attached CPU loses exactly the pages of the range |
| `CpuMap.SubtractExact` | src/xbox_cpu.cpp:284-297 | unmapping is interval subtraction, byte for byte |
| `CpuMap.SubtractTidy` | src/xbox_cpu.cpp:284-297 | the remainders are whole pages and stay disjoint |
| `CpuMap.Trimmed` | src/xbox_cpu.cpp:286-297 | the loop computes that subtraction |
| `CpuMap.UnmapDescribes` | src/xbox_cpu.cpp:274-299 | the range list and the engine lose the same pages |
| `CpuMap.MapDescribes` | src/xbox_cpu.cpp:248-272 | the range list and the engine gain the same pages |
| `CpuMap.GuestCpu.MapRange` | src/xbox_cpu.cpp:248-272 | succeeds exactly for a range already mapped by one entry or for free pages with committed memory, and keeps list and engine in agreement |
| `CpuMap.GuestCpu.UnmapRange` | src/xbox_cpu.cpp:274-299 | succeeds exactly when all pages are mapped, and keeps list and engine in agreement |
| `IoQueueRuns.RunKeeps` | src/io_queue.cpp:31-217 | the queue's invariant holds after every interleaving, whatever tags the callers use |
| `IoQueueTheorems.RefinesReplay` | src/io_queue.cpp:165-217 | at most one request in flight, none started behind a pending one, completion in enqueue order, at most 8 slots, and memory equal to the transfers of the Done requests in enqueue order, each with the bytes its file had when it was read |
| `IoQueueTheorems.TransfersComeFromFiles` | src/io_queue.cpp:196-199 | in every run, whatever was written to memory was the slice of the request's file at an earlier step of the worker |
| `IoQueueTheorems.MemoryIsReplayOfFiles` | src/io_queue.cpp:165-217 | while no file is updated, memory is the Done requests replayed one after the other from the files |
| `IoQueueMemory.WriteIsExact` | src/io_queue.cpp:199 | a write stores its data at its destination, byte by byte, and nowhere else |
| `IoQueueMemory.MemoryByteIs` | src/io_queue.cpp:192-199 | in every run without file updates, each byte of memory is that of the file of the last Done request, in enqueue order, that covers it, or the byte that was there at the start |
| `IoQueueMemory.OutcomeIsExact` | src/io_queue.cpp:192-208 | in every run, a request ends Done exactly when its file held the whole slice and its memory was writable at the moment of its input/output, and in error otherwise |
| `IoQueueGate.WaitAllMeansDone` | src/io_queue.cpp:120-131 | when wait_all returns, every request that was ever pending under an open gate is terminal |
| `IoQueueGate.SubmittedBeforeStartExactly` | src/io_queue.cpp:165-190 | in every run, the gate opened between the push of a started request and its start exactly when it was closed at the push |
| `IoQueueGate.LateRequestStarts` | src/io_queue.cpp:165-190 | a run in manual mode that starts a request after whose enqueue nobody submitted |
| `IoQueueGate.MakersNotify` | src/io_queue.cpp:62-131 | a step that makes the condition of the worker, of enqueue_wait, of wait_tag or of wait_all true notifies the condition variable it is waited on with |
| `IoQueueGate.NoMissedNotification` | src/io_queue.cpp:62-217 | in every run, between a moment at which such a condition is false and a later one at which it is true lies a step that made it true and notified |
| `IoQueueTheorems.HalfFullIsOpen` | src/io_queue.cpp:62-68 | with auto-submit on from the start, a half-full backlog means an open gate |
| `IoQueueTheorems.FullQueueFreesASlot` | src/io_queue.cpp:45-50 | with auto-submit on, a full queue has a worker step, and in every run three worker steps, with any other steps between them, pass a moment with a free slot |
| `IoQueueTheorems.ManualModeCanStall` | src/io_queue.cpp:62-68 | with auto-submit off a reachable full queue has no worker step |
| `IoQueueTheorems.AutoSubmitCanComeTooLate` | src/io_queue.cpp:62-68 | a reachable full queue with auto-submit switched on again still has no worker step |
| `IoQueueTheorems.TagsStayUniqueExactly` | src/io_queue.cpp:31-69 | a step keeps tags unique exactly when it admits no waiting caller whose tag is in the list |
| `IoQueueTheorems.CarefulTagsAreUnique` | src/io_queue.cpp:31-69 | tags are unique in every run whose waiting callers bring different tags |
| `IoQueueTheorems.DuplicateTagRun` | src/io_queue.cpp:42-60 | a run that ends with two requests of one tag |
| `IoQueueObject.RequestQueue.PendingLocked` | src/io_queue.cpp:21-27 | counts the pending requests |
| `IoQueueObject.RequestQueue.EnqueueCommon` | src/io_queue.cpp:31-69 | accepts exactly a positive size, a valid path, committed memory, a new tag and, without waiting, a free slot; then the request is appended and the gate opens at a backlog of four under auto-submit, or the caller waits; refusal changes nothing |
| `IoQueueObject.RequestQueue.Release` | src/io_queue.cpp:45-69 | a waiting caller with a free slot leaves the waiters and appends its request |
| `IoQueueObject.RequestQueue.CancelTag` | src/io_queue.cpp:81-92 | succeeds exactly if a pending request has the tag, and cancels one such and changes nothing else |
| `IoQueueObject.RequestQueue.SubmitAll` | src/io_queue.cpp:94-101 | succeeds exactly for a closed gate over a non-empty backlog, and opens it |
| `IoQueueObject.RequestQueue.WorkerBegin` | src/io_queue.cpp:165-190 | starts the first pending request, or closes the gate exactly if there is none |
| `IoQueueObject.RequestQueue.WorkerIo` | src/io_queue.cpp:192-199 | succeeds exactly if the file holds the slice and all bytes of memory are writable; then each of these bytes is that of the file and no other byte changes; otherwise memory is untouched |
| `IoQueueObject.RequestQueue.WorkerEnd` | src/io_queue.cpp:200-215 | marks the in-flight request, found by its tag, Done or in error, and closes the gate when the backlog is empty |
| `IoQueueObject.RequestQueue.TagStatus` | src/io_queue.cpp:103-118 | ready exactly in a terminal state; an unknown tag is an error at once |
| `BitFields.Unpack` | src/xbox_vs.cpp:10-12 | reading a field of a packed word gives back its value, for every layout |
| `ShaderCode.EncodeRoundTrip` | tests/test_xbox_shaders.cpp:32-89 | all fields of an encoded slot read back, and its words fit 32 bits |
| `ShaderCode.DecodeInvertsEncode` | src/xbox_vs.cpp:279-376 | decoding inverts the encoder on every valid slot |
| `ShaderCode.DecodedIsValid` | src/xbox_vs.cpp:279-376 | the decoder's results are exactly the valid slots, and unused bits are ignored |
| `ShaderCode.AcceptedExactly` | src/xbox_vs.cpp:279-376 | the checks accept exactly the known operations with registers that exist, constants in range and documented outputs |
| `ShaderProgram.DecodeProgram` | src/xbox_vs.cpp:380-402 | decodes up to 136 slots and stops at the first final one or the first error |
| `ShaderProgram.FirstBadSlotIsNamed` | src/xbox_vs.cpp:386-401 | a program is refused at its first slot that does not decode, with that slot's number, or for lack of a final slot |
| `ShaderProgram.AcceptedIsWellFormed` | src/xbox_vs.cpp:380-402 | an accepted program has 1 to 136 valid slots with the final marker on the last only |
| `ShaderProgram.ProgramRoundTrip` | src/xbox_vs.cpp:380-402 | decoding inverts encoding on every well-formed program, whatever follows it |
| `Shader.FailsExactly` | src/xbox_vs.cpp:81-118 | an accepted slot fails exactly when it reads a relative constant outside c0 - c191, the ILU seeing an address register loaded in the same slot |
| `Shader.OutputNeverFails` | src/xbox_vs.cpp:260-277 | the output write of an accepted slot cannot fail |
| `Shader.ExecIsFramed` | src/xbox_vs.cpp:412-491 | inputs and reserved outputs are never written, constants and the address register only where the slot says |
| `Shader.PairedIluOwnsR1` | src/xbox_vs.cpp:463-474 | in a paired slot R1 depends on the ILU result alone |
| `Shader.RunFailsExactly` | src/xbox_vs.cpp:412-491 | a run fails exactly when it reaches a slot that reads a constant outside c0 - c191 in the registers it finds there |
| `Shader.TripsAreRelative` | src/xbox_vs.cpp:81-118 | only relative addressing takes an accepted slot out of range |
| `Shader.AddIgnoresOperandA` | src/xbox_vs.cpp:15-23 | the result of an ADD slot does not depend on operand A |
| `Shader.AcceptedProgramIsSafe` | src/xbox_vs.cpp:380-491 | whatever words the decoder accepts, running them fails exactly at a reached slot whose relative constant is out of range |
| `ShaderLaws.OperandLaw` | src/xbox_vs.cpp:69-118 | a source reads exactly the swizzled, signed components of the register it names, or fails exactly when it names none or a constant out of range |
| `ShaderLaws.MaskLaw` | src/xbox_vs.cpp:75-79 | bit k of a mask decides component k |
| `ShaderLaws.SlotLaw` | src/xbox_vs.cpp:421-488 | the meaning of every slot in range, register by register: operands, zeros for unused ones, ARL before the ILU, R1 for a paired ILU, masks, and the output of the selected unit |
| `ShaderLaws.ArithmeticLaw` | src/xbox_vs.cpp:120-173 | the MAC operations by number, component by component |
| `ShaderLaws.MovLaw` | src/xbox_vs.cpp:412-491 | a one-slot MOV program leaves the swizzled operand in its output and changes nothing else |
| `ShaderLaws.TransformLaw` | src/xbox_vs.cpp:412-491 | the four DP4 slots of a position transform leave the product of the matrix in four constants with the input vector in oPos and change nothing else |
| `ShaderLaws.ArlLaw` | src/xbox_vs.cpp:443-448 | ARL loads the address register from the first component of its operand |
| `ShaderObject.VsMachine.Read` | src/xbox_vs.cpp:81-118 | component k of the operand is the component of the named register that swizzle field k selects, or field x for all four of a scalar, negated if asked; a constant outside c0 - c191 or no register file is refused |
| `ShaderObject.VsMachine.PutTemp` | src/xbox_vs.cpp:254-258 | each component of R0 - R11, or of oPos for R12, takes the new value exactly if its mask bit is set; no other register changes |
| `ShaderObject.VsMachine.PutOutput` | src/xbox_vs.cpp:260-277 | the same of a constant or an output; refused exactly for a constant above 191 or a reserved output |
| `ShaderObject.VsMachine.Step` | src/xbox_vs.cpp:421-488 | one slot changes the arrays as the transition function says |
| `ShaderObject.VsMachine.Execute` | src/xbox_vs.cpp:412-491 | a program is the fold of its slots, stopping at the first failure |
| `Loader.FindOffset` | src/xbe_loader.cpp:302-322 | headers first, then the first section whose raw data holds the address |
| `Loader.ResolvesExactly` | src/xbe_loader.cpp:292-322 | the file view resolves exactly the header bytes that the file has and the raw bytes of sections |
| `Loader.ViewsAgreeExactly` | src/xbe_loader.cpp:292-322 | an address the file view resolves holds that byte of the file exactly when it is not a header address over which a section put a different byte |
| `Loader.ViewsAgree` | src/xbe_loader.cpp:292-322 | if sections start past the headers, every address the file view resolves holds that byte of the file |
| `Loader.TailIsZero` | src/xbe_loader.cpp:523-532 | every byte of a section beyond its raw data is zero, and the file view does not resolve it |
| `Loader.UntouchedIsKept` | src/xbe_loader.cpp:487-544 | an address outside headers and sections keeps its byte |
| `XbeParse.Parse` | src/xbe_loader.cpp:44-290 | accepts exactly the files whose words pass every check of parse_impl, and returns the image they describe |
| `XbeParse.AcceptsExactly` | src/xbe_loader.cpp:44-290 | acceptance in the file's own words: every structure that parsing reads lies in the file, sections are in bounds, and the decoded addresses are in the image |
| `XbeParse.SectionRoundTrip` | src/xbe_loader.cpp:156-166 | a section header written with any flags reads back, its three protection flags included |
| `XbeParse.ParseSections` | src/xbe_loader.cpp:142-190 | reads the section headers and accepts them exactly when each one's raw data is in the file and fits its virtual size |
| `XbeParse.ImageExtent` | src/xbe_loader.cpp:201-217 | accepts the virtual ranges exactly when they start in the image and fit 32 bits, and finds the end of the image |
| `XbeParse.WordIs` | src/xbe_loader.cpp:12-16 | a word written little-endian into a file reads back |
| `XbeParse.SectionInHeadersDisagrees` | src/xbe_loader.cpp:302-307 | a file that parsing accepts, with a section inside the header block, for which the two views differ |
| `Loader.FailsExactly` | src/xbe_loader.cpp:487-544 | loading over-reads the file exactly when the header pages commit and the header block is longer than the file; it faults exactly when it reaches a section without raw data that begins on a page made read-only before |
| `Loader.LoadsExactly` | src/xbe_loader.cpp:487-544 | loading succeeds exactly when the headers are in the window and in the file and every section, in its turn, follows the ones before it, lies in the window and starts on a page still writable |
| `Loader.SectionFaultsExactly` | src/xbe_loader.cpp:522-532 | a section whose first page an earlier one made read-only is refused if it has raw data and faults if it has none; otherwise it loads |
| `Loader.SeparatePagesNeverFault` | src/xbe_loader.cpp:522-532 | if no two sections share a page, loading never faults |
| `XbeParse.ShortFileIsOverread` | src/xbe_loader.cpp:496 | a file that parsing accepts and whose header copy reads past its end |
| `XbeParse.SharedPageFaults` | src/xbe_loader.cpp:522-540 | a file that parsing accepts and whose zero fill stores to a read-only page |
| `Loader.LoadedXbe.MapSection` | src/xbe_loader.cpp:504-542 | loads raw bytes and zero tail over what was there and applies the protection, or says whether the section is refused or faults |
| `Loader.LoadedXbe.MapHeaders` | src/xbe_loader.cpp:487-500 | commits and copies the header block, or says that it is refused or over-reads |
| `Loader.LoadedXbe.Map` | src/xbe_loader.cpp:487-544 | ends in one of the four outcomes of the load function; on success memory is the fold of headers and ascending sections, agrees with the file view exactly where no section overlays the headers, the committed pages are those of headers and sections, and the read-only ones those of sections that are not writeable or flag their first or last page |
| `Handles.InsertRefines` | src/xbox_krnl.cpp:236-247 | an insert binds a handle that was not live, a nonzero multiple of 4, and changes no other |
| `Handles.CloseRefines` | src/xbox_krnl.cpp:1551-1561 | a close removes exactly that binding and refuses a handle that names nothing |
| `Handles.DoRefines` | src/xbox_krnl.cpp:221-247 | each operation on the table is the same operation on a finite map |
| `Handles.SequenceRefines` | src/xbox_krnl.cpp:221-247 | a whole sequence of creates and closes on the table is the same sequence on a finite map, with fresh handles throughout |
| `Handles.EverySequenceRuns` | src/xbox_krnl.cpp:221-247 | after any sequence the free list names each empty slot exactly once |
| `Handles.DeadUntilReissued` | src/xbox_krnl.cpp:221-247 | a closed handle names nothing until a create returns it again |
| `Handles.HandleTable.Lookup` | src/xbox_krnl.cpp:221-229 | zero, misaligned and out-of-range handles name nothing |
| `Handles.HandleTable.InsertObject` | src/xbox_krnl.cpp:236-247 | uses the slot freed last, or a new one |
| `Handles.HandleTable.NtClose` | src/xbox_krnl.cpp:1551-1561 | empties the slot and puts it on the free list |

## Left out

- Thread objects as waitable objects, suspend and resume, and thread-handle joins: termination wakes one waiter per call and a system thread can have two identities, so the wake-up theorem does not hold of them.
- The owner token of a mutant is the dying thread's id in the source; the model identifies it with the fiber's scheduler handle.
- Objects embedded in guest memory and objects in the handle table are one table in `Kernel.dfy`; `Handles.dfy` models handles on their own.
- The mirror of an object's state in guest memory (`write_signal_state`, `write_dispatcher_header`).
- The refusal to initialise a critical section in memory that cannot be written, and sections whose words the guest writes itself.
- 32-bit overflow of SignalState, RecursionCount and a semaphore's count after 2^31 operations without a release.
- Absolute FILETIME deadlines, which depend on the host clock, and the reading of arguments from guest memory.
- Stacks, `swapcontext`, `mmap` and `mprotect`: a switch ends a step, and page protection always succeeds.
- SchedulerObject.GuestScheduler.SpawnThread: does not model a stack that cannot be mapped, because that depends on the host; the source then returns 0 too.
- Scheduler handles after a failed stack allocation, where the handle counter runs ahead of the table.
- Machine-word widths elsewhere: table indices, ticks and tags are unbounded; the pool's arithmetic is 32-bit in `FirstFit.dfy`.
- Unicorn: the engine is a set of pages that refuses to map a page twice or to unmap one that is not mapped; `attach` is taken to map every committed page, with nothing said about its protection runs.
- Pool pages are committed by `mm_alloc` alone; the downward stack allocator of the CPU runtime is not part of this model.
- MemMap aliasing and page protection changes: the queue sees writable bytes, committed addresses and files. Memory is written by the queue alone.
- Spurious and delayed wake-ups of condition variables: a waiting caller is one whose condition is looked at in a later step. Shutdown of the worker.
- Floating-point: addition, multiplication, negation and comparison of components, the ILU operations other than MOV and the floor of ARL are parameters; the null program, and 32-bit overflow of the address register added to a constant index.
- The contents of XBE certificates, section names, library versions and TLS directories beyond what decides acceptance, and the error texts of parsing.
- Vulkan, GLFW, presentation, audio, input, register combiners, export tables and formatting: device plumbing, or easy members.
