# Verification of the donkeycarGT core

This project models the concurrent core of donkeycarGT and proves what it promises: the
managed thread with its five-state handshake, the parts and the vehicle built on it, the
locks and the locked map, and the smaller algorithms beside them. `dafny verify
dfyconfig.toml` checks everything.

## The managed thread

`TaskStatus.dfy` holds the five states and what each critical section of
`ManagedTaskStatus` decides: `RequestEntry` for `pause_task_blocking` and
`resume_task_blocking`, `EntryVerdict` and `WokenVerdict` for `wait_to_run`. The class of
the same name runs these methods in place, with their wait loops, against every sequence of
states that the rest of the program may leave behind while the method waits.

`Handshake.dfy` is the whole managed thread as a transition system: one worker in
`ManagedThread::task`, any number of supervisors that may make any call at any time, the
recursive mutexes `m_mutex_pause_resume` (`outer`) and that of the status (`inner`) with
owner and depth, the waiter set of the condition variable, `m_state` and `m_should_exit`.
Taking a mutex is a step of its own; so is every read and write of `m_should_exit`; the code
between taking the status mutex and releasing it, or beginning to wait, is one step. A wait
splits into queueing with release, waking (by signal, time-out or spuriously) and taking the
mutex again. `trigger_all()` wakes one waiter at least, as POSIX.1-2017 promises for
`pthread_cond_signal`. The assertions of the code are not preconditions: a call that fails
one ends the run with the assertion's name. A label fixes every choice of the scheduler, of
the condition variable and of the virtual `should_exit()`, so a run is a sequence of labels,
and statements about all label sequences are statements about all runs.

- `Invariants.dfy`: the inductive invariant.
- `Safety.dfy`: suspension, answers, signals, assertions and exit, over all runs.
- `Diagram.dfy`: who may change what, in which order, and what a call has done when it
  returns.
- `Refinement.dfy`: the handshake implements a three-mode machine.
- `Deadlock.dfy`: the calls that can never return, for any number of supervisors, and where
  they end up.
- `Returning.dfy`: every other call that owns `m_mutex_pause_resume` can return, so the
  condition is exact.
- `Hangs.dfy`: runs that do hang.
- `Discipline.dfy`: when `join()` is safe after `graceful_exit()`, and what keeps a
  `suspend()` or `resume()` from being lost.
- `Orderly.dfy`: any number of supervisors that keep the documented order never get stuck.
- `Progress.dfy`: bounds on the worker's steps to an answer and to its end.
- `Solo.dfy`: one supervisor with a legal script of any length is never stuck.
- `Termination.dfy`: for the same scripts, shutdown and suspension end under every
  scheduler, without fairness, within a bound that counts the time-outs; and the
  supervisor's own steps are bounded in the whole script.
- `Fleet.dfy`: all the parts of a vehicle, interleaved.

A statement that requires `Inv` or `PlayInv` holds of every reachable state
(`Safety.ReachableInv`, `Solo.PlayRunKeepsInv`).

### Where the code does less than its documentation

- `graceful_exit()` and `join()` are documented as the way to end a thread
  (`include/managed-thread.h:45-64`). With an overridden `should_exit()` they can hang for
  ever (`Hangs.JoinCanHang`): `join()` holds `m_mutex_pause_resume` while it waits for the
  worker, and the worker's own `graceful_exit()` wants that mutex.
- `graceful_exit()` writes `m_should_exit` before it takes the mutex. A second supervisor can
  so retire the worker during a `suspend()`, which then never returns
  (`Hangs.SuspendCanHang`).
- `Deadlock.Lost` is the exact condition for both and for every other hang of a call that
  owns `m_mutex_pause_resume`. It is a condition on the present state: on the position of
  the worker, on `m_should_exit`, on the status, and for `join()` on whether any supervisor is
  left that could raise `m_should_exit`. `Returning.ReturnsExactly`: such a call has no
  continuation in which it returns if and only if it is lost, or about to fail one of the
  assertions. `Deadlock.StalledExactly` tells which lost calls have brought everything to a
  halt; others leave the worker running, as a `join()` without a `graceful_exit()` does.
- `join()` after a finished `graceful_exit()` is safe for every `should_exit()` if and only if
  the worker is not, when `join()` gets the mutex, between its look at `m_should_exit` and the
  mutex for a `graceful_exit()` of its own (`Discipline.JoinExactly`).
- With the default `should_exit()` no `suspend()` or `resume()` is lost as long as no
  `graceful_exit()` begins while one of them is open and none of them begins after it
  (`Discipline.PoliteAsksReturn`). If moreover `start()` is called once and before all these
  and `join()` only once the exit is set, nothing hangs or fails, for any number of
  supervisors (`Orderly.OrderlyUse`). The scripts of one supervisor are of this kind
  (`Orderly.ScriptIsOrderly`).
- `trigger_all()` signals one waiter, not all (`src/event.cpp:22`).
  `Safety.SignalIsBroadcast` shows that there is never more than one to wake.

## The rest

- `Vehicle.dfy`: the store and the frame loop as classes; what every part receives.
- `LockedMap.dfy`, `Linearizability.dfy`: the locked map, and any number of threads using it.
- `Locks.dfy`: the recursive mutex and the scoped lock as classes; conservation of locks.
- `LineFollower.dfy`: mask clean-up and column search.
- `ImageList.dfy`: filter, numeric sort and cycling of the image list camera.
- `Throttle.dfy`, `Deadline.dfy`: the frame throttle and the deadline of a timed wait.
- `Wrappers.dfy`: the option type.

## Model

| member | source | states |
|---|---|---|
| TaskStatus.ManagedTaskStatus.constructor | src/managed-task-status.cpp:11-15 | the status starts running or paused, as asked |
| TaskStatus.ManagedTaskStatus.PauseTaskBlocking | src/managed-task-status.cpp:17-33 | for every sequence of states found at the wake-ups: which assertion fails, when it returns without asking, that it asks and signals once, and that it returns at the first wake-up that finds PAUSED and at no other |
| TaskStatus.ManagedTaskStatus.ResumeTaskBlocking | src/managed-task-status.cpp:35-52 | the same for RUNNING |
| TaskStatus.ManagedTaskStatus.WaitToRun | src/managed-task-status.cpp:59-89 | the answer, the new state and the signal for every entry state and every sequence of wake-ups; it leaves the loop at the first REQUEST_RUN or REQUEST_EXIT |
| TaskStatus.ManagedTaskStatus.SetExitFlagBlocking | src/managed-task-status.cpp:91-96 | the state becomes REQUEST_EXIT, with one signal |
| TaskStatus.ManagedTaskStatus.IsPaused | src/managed-task-status.cpp:102-105 | true exactly in PAUSED |
| TaskStatus.FirstIndex | src/managed-task-status.cpp:29-32 | the wake-up at which a blocking request returns is the first that finds its target |
| TaskStatus.FirstAnswer | src/managed-task-status.cpp:78-84 | the wake-up at which wait_to_run answers is the first that does not make it wait again |
| Invariants.InitInv | src/managed-thread.cpp:10-12 | the invariant holds of a thread as constructed, paused or running, with any number of supervisors |
| Invariants.OneWaiter | src/managed-task-status.cpp:29-32 | at most one thread is ever in the condition variable's waiter set |
| Invariants.WorkerKeepsInv | src/managed-thread.cpp:19-34 | every step of the worker loop keeps the invariant: mutex ownership at depth one, agreement of state and positions, waiters, joins |
| Invariants.SupKeepsInv | src/managed-thread.cpp:36-69 | every step of every management call keeps the invariant, next to any other calls |
| Invariants.StepKeepsInv | src/managed-thread.cpp:19-69 | every step of the system keeps the invariant |
| Safety.ReachableInv | src/managed-thread.cpp:19-69 | the invariant holds in every state of every run |
| Safety.WaitFreesMutex | src/event.cpp:28-35 | at every condition-variable wait the caller holds the recursive status mutex exactly once, so the wait frees it |
| Safety.SignalIsBroadcast | src/event.cpp:22 | never more than one waiter, and each signal wakes all there are |
| Safety.NoLostWakeUp | src/managed-task-status.cpp:73-87 | a thread left waiting waits for something that has not happened, so no needed wake-up is lost even if waits never timed out |
| Safety.OpenRequestHasOwner | src/managed-thread.cpp:36-44 | REQUEST_PAUSE or REQUEST_RUN belongs to a supervisor that holds m_mutex_pause_resume inside the matching wait loop |
| Safety.CrashExactly | src/managed-task-status.cpp:19-20 | in no run does an assertion against the opposite request fire; the exit assertions and that of start() fire exactly on calls after exit and on starting a thread not joined |
| Safety.AnswerKept | src/managed-task-status.cpp:71-88 | the worker's acknowledgement stands until the asking supervisor looks, whatever the others do |
| Safety.SuspendHolds | src/managed-thread.cpp:41-44 | whenever a suspend() call returns no update() is in progress or granted, and none begins in any later run until a resume() asks for it |
| Safety.ResumeHolds | src/managed-thread.cpp:36-39 | whenever a resume() call returns the state is RUNNING |
| Safety.GracefulExitHolds | src/managed-thread.cpp:46-51 | whenever a graceful_exit() call returns the state is REQUEST_EXIT |
| Safety.StartAndJoinHold | src/managed-thread.cpp:55-69 | whenever start() returns there is a worker, whenever join() returns there is none |
| Diagram.StateDiagram | src/managed-task-status.cpp:17-96 | the status changes only along the five kinds of arrows of its diagram, each taken by the thread and at the place the design gives it, and with each change all waiters are woken |
| Diagram.AnswersExactly | src/managed-task-status.cpp:59-89 | wait_to_run() answers true exactly on RUNNING and REQUEST_RUN, false exactly on REQUEST_PAUSE and REQUEST_EXIT, and waits exactly while PAUSED |
| Diagram.TaskOrder | src/managed-thread.cpp:19-34 | every place of the loop of task() and of the worker's own graceful_exit() is reached only from the place before it and on the outcome that leads there, with the mutexes it needs |
| Diagram.WorkerLife | src/managed-thread.cpp:55-69 | a thread is made only by start(), ends only by its loop guard with m_should_exit up, and is removed only by a join() after it has ended |
| Diagram.UpdatesCount | src/managed-thread.cpp:30-32 | the number of updates grows exactly when update() is entered, by the worker alone and after should_exit() has answered false |
| Diagram.UpdatesAreGranted | src/managed-thread.cpp:28-32 | every update has a true answer of wait_to_run() of its own |
| Diagram.FlagLife | src/managed-thread.cpp:46-57 | m_should_exit is raised by graceful_exit() and lowered by start(), and by nobody else |
| Diagram.ExitRaisesFirst | src/managed-thread.cpp:46-49 | graceful_exit() raises m_should_exit as its first act, whoever holds the mutexes |
| Diagram.EnvironmentIsFree | src/event.cpp:22-35 | no call between calls, time-out, spurious wake-up, answer of should_exit() or choice of woken waiters is ruled out |
| Diagram.CallOnlyReturnsLater | src/managed-thread.cpp:36-69 | no call returns in the step in which it begins |
| Diagram.CallKeepsPromise | src/managed-thread.cpp:36-69 | over any run from its beginning to its return a call keeps its promise: suspend PAUSED with no update granted, resume RUNNING, graceful_exit REQUEST_EXIT, start a worker, join none |
| Diagram.ToldWhereItLooks | src/managed-task-status.cpp:102-105 | is_paused() gets its answer only where it reads the state under the status mutex, true exactly in PAUSED |
| Safety.StartRunsThrough | src/managed-thread.cpp:55-62 | an undisturbed start() of a thread without a worker lowers m_should_exit, starts task() and changes nothing else |
| Safety.IsPausedIsSafe | src/managed-thread.cpp:53 | is_paused() answers true exactly in PAUSED, and then no update() is running or granted |
| Safety.ExitIsFinal | src/managed-thread.cpp:46-51 | REQUEST_EXIT is never left, even by start(), and at most one more update begins, the one already granted |
| Safety.ExitFromPause | src/managed-task-status.cpp:91-96 | if the exit is set while paused no update begins any more |
| Safety.RestartNeverUpdates | src/managed-thread.cpp:55-62 | whatever is called after exit and join, start() included and interleaved at will, the state stays REQUEST_EXIT and no update begins |
| Safety.FlagStopsUpdates | src/managed-thread.cpp:30 | once m_should_exit is up no update begins, but for one whose last look at the flag is already past |
| Safety.OverrideStopsUpdates | src/managed-thread.cpp:22-32 | while an overridden should_exit() answers true no update begins |
| Refinement.StepRefines | src/managed-task-status.cpp:59-96 | every step is a stutter or one allowed step of the three-mode specification; suspend takes effect where wait_to_run writes PAUSED, resume where it writes RUNNING |
| Refinement.RunRefines | src/managed-task-status.cpp:17-96 | every run is a run of the specification, with the same mode and permission at its end and its acknowledgements counted |
| Refinement.Alternates | src/managed-task-status.cpp:59-89 | in the specification pauses and resumes alternate until the exit |
| Refinement.AcksBalance | src/managed-task-status.cpp:71-88 | before exit, initial pause plus acknowledged pauses minus acknowledged resumes is 1 exactly while suspended, else 0 |
| Deadlock.LostForever | src/managed-thread.cpp:36-69 | a lost call never returns, in any continuation, with any calls, should_exit() and wake-ups |
| Deadlock.QueuedForever | src/managed-thread.cpp:36-69 | nor does any call that queues for the mutex of a lost one |
| Deadlock.StalledExactly | src/managed-thread.cpp:36-69 | inside a call, no thread can move if and only if one supervisor's call is lost and at rest and the others are idle or queue behind it |
| Returning.CanReturn | src/managed-thread.cpp:36-69 | a call that owns the outer mutex, is not lost and will not fail an assertion can return, without a time-out; and without a new call, but for a join that still needs a graceful_exit() |
| Returning.ReturnsExactly | src/managed-thread.cpp:36-69 | a call that owns the outer mutex returns in no continuation if and only if it is lost or will fail an assertion |
| Hangs.JoinCanHang | src/managed-thread.cpp:22-25 | a run of the legal calls start, graceful_exit, join with an overridden should_exit() that ends with join() lost |
| Hangs.SuspendCanHang | src/managed-thread.cpp:46-49 | a run with the default should_exit() in which another supervisor's graceful_exit() loses a suspend() with its write of m_should_exit |
| Hangs.DefaultStalls | include/managed-thread.h:85 | with the default should_exit() a stall is a request to a worker that has ended or never started, or a join of a paused worker |
| Discipline.JoinExactly | include/managed-thread.h:45-64 | join() after a finished graceful_exit() can never become lost, for any should_exit(), if and only if the worker is not between its look at m_should_exit and the mutex of its own graceful_exit() |
| Discipline.PoliteAsksReturn | include/managed-thread.h:50-57 | for any number of supervisors with the default should_exit(): if suspend and resume begin after start and before any graceful_exit, and no graceful_exit begins while one is open, none is ever lost or refused, and each that owns the mutex can return |
| Orderly.OrderlyStep | src/managed-thread.cpp:36-69 | every step of an orderly use keeps it free of lost calls and failing assertions |
| Orderly.OrderlyUse | src/managed-thread.cpp:14-69 | in an orderly use by any number of supervisors no assertion fails, no call is lost, and at any moment all open calls can be finished without a time-out and without a further call |
| Orderly.ScriptIsOrderly | src/managed-thread.cpp:14-69 | every run of a legal script of one supervisor is an orderly use |
| Progress.NotBlocked | src/managed-thread.cpp:19-34 | a worker that needs no wake-up can move, or is delayed by a supervisor that can |
| Progress.AckStep | src/managed-thread.cpp:19-34 | while a suspend or resume is open every worker step answers it or lowers the rank |
| Progress.AckBound | src/managed-thread.cpp:19-34 | while a request is open and m_should_exit is down the worker takes at most seven steps, with any number of supervisors and without needing time-outs |
| Progress.ExitWork | src/managed-thread.cpp:19-34 | once the exit is set every worker step lowers the rank of its distance to the end of task(), for any should_exit() |
| Progress.ExitBound | src/managed-thread.cpp:19-34 | at most twelve more worker steps after graceful_exit(), in any run without start() |
| Progress.RepeatChangesNothing | src/managed-thread.cpp:14-17 | repeating graceful_exit() and join() after the thread is joined changes nothing |
| Solo.ScriptsAreGeneral | src/managed-thread.cpp:36-69 | start, any suspends, resumes and is_paused, graceful_exit and join are a legal script |
| Solo.PlayKeepsInv | src/managed-thread.cpp:36-69 | a legal script of one supervisor stays in its stages at every step |
| Solo.HelpfulHelps | src/managed-thread.cpp:19-69 | in every unfinished state some step that is no time-out brings the script strictly nearer to its end |
| Solo.NeverStuck | src/managed-thread.cpp:19-69 | no reachable unfinished state of a legal script of any length is stuck, without relying on time-outs |
| Solo.CanFinish | src/managed-thread.cpp:14-69 | from every reachable state the script can be finished without a time-out, and then the thread is joined for good |
| Termination.LeavingStep | src/managed-thread.cpp:14-69 | from the raising of m_should_exit on, every step but a time-out lowers the rank of the shutdown, whichever thread takes it |
| Termination.ShutdownEnds | src/managed-thread.cpp:14-69 | from the raising of m_should_exit on a run of a script has at most 192 steps and 7 more for each wait in it that times out or wakes spuriously, under every scheduler, fair or not; it stops only with the thread joined |
| Termination.SuspendingStep | src/managed-task-status.cpp:24-32 | from its request on, every step but a time-out returns from suspend() or lowers its rank |
| Termination.SuspendEnds | src/managed-task-status.cpp:24-32 | from its request on suspend() takes at most 198 steps and 21 more for each time-out, under every scheduler, and never halts before it returns |
| Termination.ScriptBound | src/managed-thread.cpp:36-69 | in any run of a script, resume() and join() included, the supervisor takes at most 14 own steps for each call and 2 more for each of its waits that times out |
| Fleet.LoopCalls | src/vehicle.cpp:27-29 | the loops call the parts in list order, each threaded part with exactly the calls given, in their order, and no other part |
| Fleet.ScriptOrder | src/vehicle.cpp:25-65 | all start and resume calls, in list order, come before all graceful_exit and join calls, again in list order |
| Fleet.RestOfFull | include/parts/part.hpp:40-63 | of the vehicle's calls a threaded part receives start, resume, graceful_exit, join, and an unthreaded part none |
| Fleet.MoveFrames | src/vehicle.cpp:25-65 | a step of one part leaves every other part and its remaining calls as they were |
| Fleet.MoveKeepsInv | src/vehicle.cpp:25-65 | every step of the vehicle keeps every part's invariant, with at most one management call open |
| Fleet.StartedFleet | src/vehicle.cpp:25-29 | after the start loop every threaded part has a live worker in RUNNING and no other part has one |
| Fleet.NoUpdateBeforeResume | include/parts/part.hpp:40-48 | a part is constructed paused and no worker updates before the start loop has come to its resume; an unthreaded part never does |
| Fleet.StoppedFleet | src/vehicle.cpp:60-65 | after stop() every worker is finished and joined and nothing can move, so no worker updates again |
| Fleet.FleetNeverStuck | src/vehicle.cpp:25-65 | while starting or stopping any list of parts is not over, the next call can begin or the part whose call is open can move, without a time-out |
| Fleet.FleetCanFinish | src/vehicle.cpp:25-65 | from every reachable state the vehicle can be brought to the end of stop() without a time-out |
| LockedMap.LockedMap.Insert | include/locked-map.hpp:81-86 | insert is an upsert, and the lock is given back |
| LockedMap.LockedMap.At | include/locked-map.hpp:87-93 | at finds the value or reports the missing key, and the lock is given back either way |
| LockedMap.LockedMap.Clear | include/locked-map.hpp:94-109 | the map becomes empty |
| LockedMap.LockedMap.Size | include/locked-map.hpp:110-114 | the number of keys |
| LockedMap.LockedMap.Empty | include/locked-map.hpp:115-119 | true exactly when no key is present |
| LockedMap.InsertLaw | include/locked-map.hpp:81-86 | the plain map that histories are compared with: insert sets its key and changes no other |
| LockedMap.AtLaw | include/locked-map.hpp:87-93 | at throws exactly when the key is absent, else gives its value |
| LockedMap.ClearLaw | include/locked-map.hpp:94-109 | after clear no key is present |
| LockedMap.SizeLaw | include/locked-map.hpp:110-114 | size is the number of keys |
| LockedMap.EmptyLaw | include/locked-map.hpp:115-119 | empty is true exactly when no key is present, and exactly when size is 0 |
| Linearizability.StepKeepsInv | include/locked-map.hpp:81-119 | every step of every thread keeps: one thread inside, the data are the replay of the calls, one place per call, replies and real-time order |
| Linearizability.Linearizable | include/locked-map.hpp:81-119 | every concurrent run agrees with a sequential map in lock-acquisition order, which respects real-time order; the final contents agree too |
| Linearizability.AtSeesLastInsert | include/locked-map.hpp:81-109 | in every concurrent run at(k) returned the value of the last insertion of k before it in the order that no clear() follows, and threw exactly if there is none |
| Linearizability.RealTimeOrder | include/locked-map.hpp:81-119 | a call that has returned at some moment of a run comes in the order before every call invoked only after that moment |
| Linearizability.BeforeExactly | include/locked-map.hpp:81-119 | the calls recorded as returned before a call are exactly those that had returned when it was invoked |
| Linearizability.EveryCallCanReturn | include/locked-map.hpp:81-119 | in every state of every run each call in progress can be brought to its return, without a new call |
| Vehicle.Memory.Get | include/memory.hpp:33-42 | the stored datum if the key is there, null if it is not |
| Vehicle.Memory.Put | include/memory.hpp:49-51 | upsert of one key |
| Vehicle.Vehicle.Add | src/vehicle.cpp:23 | parts keep their order |
| Vehicle.Vehicle.UpdateParts | src/vehicle.cpp:77-86 | one frame: each part receives the datum last written to its topic, and the store becomes that of the longer log of writes |
| Vehicle.Vehicle.RunFrames | src/vehicle.cpp:30-37 | from any contents, the store after any number of frames is that of all their writes |
| Vehicle.StoreIsLatest | include/memory.hpp:33-51 | a read gives the latest write of the key, else what the store had before, and null if there is neither |
| Vehicle.LatestIsLastWrite | include/memory.hpp:33-51 | the latest datum is that of the last write to the topic |
| Vehicle.KeysAreWritten | src/vehicle.cpp:84 | the store's keys are exactly those it had before and the output topics written so far |
| Vehicle.ConsumerGets | src/vehicle.cpp:77-86 | a part receives what the last producer of its topic before it made in the same frame of its own input; without one, what the last producer in the list made in the previous frame; in the first frame what the store had, or null |
| Vehicle.NoProducerGivesOld | src/vehicle.cpp:80 | a topic no part writes gives in every frame what the store had before, and null if it had nothing |
| Vehicle.FirstFrameGivesNull | src/vehicle.cpp:80 | in the first frame of a new vehicle a topic that no earlier part writes gives null |
| Locks.Mutex.Lock | src/mutex.cpp:17 | the depth grows by one, for the thread that holds it |
| Locks.Mutex.Unlock | src/mutex.cpp:18 | the depth shrinks by one; at zero the mutex is free |
| Locks.Mutex.TryLock | src/mutex.cpp:20-26 | succeeds exactly when the mutex is free or already the thread's, and else changes nothing |
| Locks.Lock.Take | include/lock.hpp:26-28 | a new lock holds its mutex once more |
| Locks.Lock.Empty | include/lock.hpp:29 | an empty lock holds nothing |
| Locks.Lock.Copy | include/lock.hpp:36 | a copy locks the same mutex once more |
| Locks.Lock.Move | include/lock.hpp:49-51 | the new lock gets what the old one had, and the old one is empty |
| Locks.Lock.MoveAssign | include/lock.hpp:58-62 | the two locks exchange what they hold, also when they are the same lock |
| Locks.Lock.Destroy | include/lock.hpp:68-83 | every lock it holds is given back, one by one |
| Locks.Scope.Construct | include/lock.hpp:26-28 | constructing a lock keeps depth equal to the sum of the live locks' counts, for every mutex |
| Locks.Scope.ConstructEmpty | include/lock.hpp:29 | so does constructing an empty one |
| Locks.Scope.Copy | include/lock.hpp:36 | so does copying a non-empty one |
| Locks.Scope.Move | include/lock.hpp:49-51 | so does moving, which moves the share with it |
| Locks.Scope.MoveAssign | include/lock.hpp:58-62 | so does move assignment, which swaps the shares |
| Locks.Scope.Destroy | include/lock.hpp:68-72 | so does destroying any live lock, in any order |
| Locks.Scope.DestroyAll | include/lock.hpp:68-72 | when all are destroyed no mutex is held |
| Locks.Scope.NoneAliveNoneHeld | include/lock.hpp:68-72 | a mutex no live lock points at is not held by the thread |
| Locks.SumSet | include/lock.hpp:58-62 | the sum over the live locks changes by the difference when one lock's share is replaced |
| Locks.SumDrop | include/lock.hpp:68-72 | the sum over the live locks loses the share of the lock that dies |
| LineFollower.Adjoint | src/parts/line-follower.cpp:45-47 | 3x3 dilation and erosion, clipped at the border, are adjoint on images of any size |
| LineFollower.CleanMonotone | src/parts/line-follower.cpp:46-47 | a whiter mask stays whiter after closing and opening |
| LineFollower.CleanIdempotent | src/parts/line-follower.cpp:46-47 | closing then opening a second time changes nothing |
| LineFollower.CleanHasWindows | src/parts/line-follower.cpp:47 | every surviving white pixel lies in a clipped 3x3 window that is wholly white |
| LineFollower.CleanExactly | src/parts/line-follower.cpp:46-47 | a pixel survives closing and opening if and only if it lies in a clipped 3x3 window in which every pixel, and every neighbour of one, is near a white pixel |
| LineFollower.HoleIsFilled | src/parts/line-follower.cpp:46 | a one-pixel hole is filled and its surroundings stay white |
| LineFollower.Histogram | src/parts/line-follower.cpp:50-51 | the column sums of the mask |
| LineFollower.MaxLoc | src/parts/line-follower.cpp:54-56 | the maximum and its first position |
| LineFollower.ColumnSumCounts | src/parts/line-follower.cpp:58-60 | the sum of a column is 255 times its white pixels |
| LineFollower.Update | src/parts/line-follower.cpp:32-75 | empty images are skipped, those under 120 rows are an error; else the mask is exactly what survives of rows 100 to 119, the reported column is the first with most white pixels in it, and the count is exact |
| LineFollower.DetectedExactly | src/parts/line-follower.cpp:110 | the line counts as detected exactly when the reported column is white in all scanned rows, which is so exactly when any column is |
| ImageList.PrefixExactly | src/parts/image-list-camera.cpp:37-38 | only the part of a name before its first underscore counts, the whole name if there is none |
| ImageList.StoiExactly | src/parts/image-list-camera.cpp:37-38 | white space, an optional sign and all following digits are read as a decimal number and the rest is ignored; it throws exactly without digits or outside the 32-bit range |
| ImageList.TokenOfNumbered | src/parts/image-list-camera.cpp:37-38 | a file whose name begins with a decimal number is sorted by it, whatever follows the digits |
| ImageList.TokenOfUnnumbered | src/parts/image-list-camera.cpp:37-38 | a name that begins with no digit, sign or white space has no number |
| ImageList.JpgExactly | src/parts/image-list-camera.cpp:26-31 | the filter accepts exactly the names that end in .jpg |
| ImageList.FilteredKeepsJpgs | src/parts/image-list-camera.cpp:23-33 | the filter keeps each .jpg entry as often as it occurs and nothing else |
| ImageList.SortFiles | src/parts/image-list-camera.cpp:35-40 | a permutation in non-decreasing prefix order; it fails exactly when two or more files are compared and one has no int prefix |
| ImageList.LoadList | src/parts/image-list-camera.cpp:18-45 | the image list is the sorted .jpg entries with the directory in front |
| ImageList.ImageListCamera.Update | src/parts/image-list-camera.cpp:55-61 | the index advances cyclically and the file at it is loaded; an empty list does nothing |
| ImageList.ImageListCamera.Updates | src/parts/image-list-camera.cpp:55-61 | update number k loads index k mod n |
| ImageList.EachOnce | src/parts/image-list-camera.cpp:56 | any n consecutive updates load each of n files exactly once |
| Throttle.PeriodExact | src/vehicle.cpp:49 | so many periods as frames a second are a second; the default of 10 gives 100 ms |
| Throttle.FrameBound | src/vehicle.cpp:43-57 | defined exactly when the difference fits a 32-bit int; a throttled frame then lasts more than the period less 1 ms and at most the period if and only if its work is done within the period; else it lasts as long as its work |
| Throttle.FramesBound | src/vehicle.cpp:30-37 | K frames on time last more than K times the period less 1 ms and at most K periods |
| Deadline.MsExact | src/event.cpp:44-50 | every 32-bit timeout is converted exactly to a normalised time, without overflow |
| Deadline.PlusExact | src/event.cpp:51-60 | the sum of normalised times is normalised and exact if and only if it fits |
| Deadline.DeadlineExact | src/event.cpp:28-35 | the deadline of a timed wait is normalised and exactly start plus timeout if and only if its seconds fit |
| Deadline.PlusCommutes | src/event.cpp:51-60 | addition is commutative |
| Deadline.PlusAssociates | src/event.cpp:51-60 | addition is associative where the sum fits |
| Deadline.PlusKeepsOrder | src/event.cpp:51-60 | addition keeps the order of times, strictly and both ways |

## Left out

- `ManagedThread` as a class: its loop and calls never run alone, so they are steps of the transition system; what is lost is the C++ text order of statements inside one step, never the order of steps.
- `request_pause()` and `is_running()`: reads under the same lock as `is_paused()`, which is modelled.
- Scheduler fairness: progress is stated as bounds on steps and as runs that finish. That a queueing supervisor gets a mutex at last, against a worker that keeps taking it, would need strong fairness of the mutexes and is not stated; with it, `Solo.NeverStuck` and `Termination.ScriptBound` say that a script whose waits time out finitely often ends.
- Returning.ReturnsExactly: speaks of calls that own `m_mutex_pause_resume`; for one that still queues, `Deadlock.QueuedForever` covers a lost owner, and what it meets after another owner depends on calls still to come.
- Calls of the management API from inside `update()`, which the design excludes.
- Thread creation failures, and everything inside pthread and `std::thread`; their documented behaviour is assumed.
- `Event::wait` without a time-out: no class of the model's scope calls it.
- SIGINT re-entry into a thread inside `start_blocking()`; `stop()` is a call after the start loop. `m_running` appears only as the number of frames.
- Parts whose class overrides `should_exit()` in `Fleet`: the repository's own parts do not; `Hangs` shows what can happen.
- Concrete `run()` and `update()` bodies of parts: the data flow is proved for every behaviour of them, threaded or not.
- Deletion of raw pointers in `LockedMap::clear`: the program stores shared pointers.
- `pthread_mutex_trylock` errors other than EBUSY, and a recursion depth beyond the system's limit.
- Copying an empty `Lock`, which dereferences a null pointer in the source.
- HSV conversion and colour thresholds: the set of pixels in range is an input. All drawing, display and console output.
- The algorithm of `std::sort`: the model sorts by insertion, and its callers know only that the result is a sorted permutation.
- Directory traversal and image decoding; file names are an input.
- Rounding of doubles in the throttle: periods are real numbers; the two truncations and the int cast are modelled, and a difference that does not fit an int is undefined as in C++.
- Signed overflow of `tv_sec`, undefined in C++, is taken as two's-complement wrap-around.
- Keras and TFLite, network parts, web camera and image consumer: wrappers or stubs.
