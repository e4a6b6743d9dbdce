# Verified models of thesky: timing wheel, event loop, thread pool, loop pool

thesky is a C++ game-server base. This project models its four concurrent cores and proves what they promise.

**The timing wheel** (`Bits`, `Geometry`, `Wheels`, `Timers`). A 32-bit tick is split into one 8-bit and four 6-bit
fields; 256 near queues and 4 x 64 upper queues hold tasks. `Timers.Timer` is the class `timer` over arrays, with the
or-masks, shifts and loops of the source on 32-bit words (`Bits` defines `|`, `&`, `<<`, `>>` bit by bit). Each method is
proved against a function on the value `Wheels.Wheel`. On top of those functions:

- `Location` states where every pending task sits in terms of unbounded time, and that rounds and inserts keep it so.
- `Reference` is the simple machine, a stable priority queue of absolute deadlines. `Runs` says what can be read off a
  run (a sequence of unlocked reads, locked inserts and catch-up rounds) without running anything. `Refinement` proves
  that wheel and queue agree on every run without late inserts.
- `Thinning` proves that the wheel treats a task the same whatever else it holds, and so carries the refinement over to
  every run: to the tasks inserted in time, late ones make no difference. `Punctuality` draws the consequences.
- `Fates` follows one insert, however early or late, through any run, and gives its dispatch tick in closed form.
  `StaleInserts` reads off when a late insert is served, delayed or lost.
- `Clock` drives the timer by a clock, calls and inserts falling between any two rounds, and bounds how early and how
  late a task is dispatched. `WrittenShift` is about line 208 as written.

**The event loop** (`EventLoops`, `EventLoopObject`). Producers inside `QueueInLoop` and the consumer inside
`HandlerFn`, `DoPendingFunctors` and `StopInLoop` as a machine whose steps are the source's atomic accesses; the pipe is
a byte counter of bounded capacity with level-triggered reads. Batches nest, because a queued `StopInLoop` runs
`DoPendingFunctors` again. The class holds the methods, tied to the machine for uninterrupted calls.

**The thread pool** (`ThreadPools`, `ThreadPoolObject`) and **the loop pool** (`LoopPools`, `LoopPoolObject`) have the
same two layers. `Filters` and `Wrappers` are helpers. Some proofs use `hide` to keep definitions they do not need out
of the solver's way; nothing is assumed.

## Findings

- `thesky-src/thesky_timer.h:208` shifts a 32-bit value by 63 where the geometry needs 6. Such a shift has no defined
  result. The model carries the amount as a parameter (`Wheels.LevelStep`); everything below `Location` is about 6, and
  `WrittenShift.WrittenRunSurvives` shows that with 63 a run gets through iff it makes fewer than 2^14 rounds (164 s).
- The tick is read outside the lock (line 133) and the task inserted inside it (line 141). If more rounds pass in
  between than the task's own delay, it may be lost. Too late by less than a turn of the 32-bit tick, it is
  dispatched 256 ticks after its due tick d if its insert still falls into d's block of 256; else never, if one of d's
  fields from the upper wheel at which time has left d's block up to upper wheel 2 is zero; else a whole turn (497
  days) after d (`StaleInserts.LateFate`, `StaleInserts.LateInsertLostIff`; `Fates.InsertFate` for any lateness). For a
  delay under 10 ms and one round between, that is the end of any block with a zero field
  (`StaleInserts.OneRoundLateLostIff`). Other tasks are not affected (`Punctuality.LogIsStableSort`).
- `pending_functor_count_` can be negative (`EventLoops.CounterCanBeNegative`).
- `EventLoopThreadPool::Stop` without waiting reports a stopped pool while loops run, and in a pool of any size the
  status can then go back to running (`LoopPools.StopIsFinalIff`, `LoopPools.StatusIsFinalIff`), contrary to the
  comments at lines 146-147.
- `int64_t next_` is converted to unsigned before the remainder, so round robin survives the sign change at 2^63 and is
  fair for 2^64 calls.
- The overflow guard at line 129 of the timer never fires, because `ms / 10` is below 2^31 (`Timers.Timer.ReadExpire`).

## Model

| member | source | states |
|---|---|---|
| Bits.AndLowMask | thesky-src/thesky_timer.h:179-179 | masking with k low bits is the remainder mod 2^k |
| Bits.MaskedEqual | thesky-src/thesky_timer.h:229-229 | the or-mask comparison asks whether the bits above the mask agree |
| Geometry.TopDifferenceIsPrefix | thesky-src/thesky_timer.h:236-242 | no field from j up differs iff the quotients by the field's span agree |
| Geometry.PlaceIsSlotOf | thesky-src/thesky_timer.h:225-247 | for deadlines up to half a turn ahead the slot chosen from 32-bit words, wrap included, is the one unbounded time gives |
| Geometry.StepMovesOneSlot | thesky-src/thesky_timer.h:189-212 | a step of time changes the place of pending tasks of one slot only, the one redistributed |
| Geometry.CascadeDescends | thesky-src/thesky_timer.h:214-223 | every task of the redistributed slot goes to a strictly lower level |
| Geometry.LowLevelsAreDone | thesky-src/thesky_timer.h:197-211 | when time enters a new block all levels below the redistributed one are empty |
| Timers.MaskTest | thesky-src/thesky_timer.h:229-238 | the mask tests select the most significant differing field |
| Timers.ShiftedSpan | thesky-src/thesky_timer.h:235-241 | the shift runs through the spans and wraps only in the product that is never compared |
| Timers.MaskedField | thesky-src/thesky_timer.h:244-244 | the shift and mask extract the field of the chosen level |
| Timers.Timer.constructor | thesky-src/thesky_timer.h:107-120 | an empty wheel at tick 0, recording the clock tick given |
| Timers.Timer.ReadExpire | thesky-src/thesky_timer.h:128-133 | the expiry is tick plus ms / 10 mod 2^32, and the overflow guard never refuses |
| Timers.Timer.FindLevel | thesky-src/thesky_timer.h:235-242 | the search loop ends at the level of the most significant differing field |
| Timers.Timer.EmplaceTask | thesky-src/thesky_timer.h:225-247 | the task is appended to exactly the queue of its most significant differing field; nothing else changes |
| Timers.Timer.InsertLocked | thesky-src/thesky_timer.h:138-143 | the locked half of a timeout call is one insert |
| Timers.Timer.DownQueue | thesky-src/thesky_timer.h:214-223 | terminates in every reachable state, empties its queue and re-inserts its tasks front to back |
| Timers.Timer.TimerExecute | thesky-src/thesky_timer.h:176-187 | dispatches the current near queue in order and empties it |
| Timers.Timer.SearchLevels | thesky-src/thesky_timer.h:199-210 | the search loop, for either shift amount, with the outcome that it has none |
| Timers.Timer.TimerShift | thesky-src/thesky_timer.h:189-212 | one increment with at most one redistribution, or no defined outcome |
| Timers.Timer.Round | thesky-src/thesky_timer.h:167-170 | the locked body of the catch-up loop |
| Timers.Timer.CatchUp | thesky-src/thesky_timer.h:164-171 | as many rounds as ticks were missed, with whatever other threads insert before each, the lock being free there |
| Timers.Timer.TimerUpdate | thesky-src/thesky_timer.h:156-174 | missed rounds are made up and the clock tick recorded, also when the clock went back, with inserts between the rounds |
| Wheels.EmplaceAllAt | thesky-src/thesky_timer.h:218-222 | draining a queue appends to every other queue its own tasks in their order and changes nothing else |
| Wheels.CascadeLeaves | thesky-src/thesky_timer.h:214-223 | in any reachable state a drained task never returns to the queue being drained |
| Wheels.RoundsWellPlaced | thesky-src/thesky_timer.h:166-171 | every task stays where its own expiry's field points, over any rounds and the inserts between them |
| Wheels.SearchFindsLowestField | thesky-src/thesky_timer.h:198-211 | with a 6-bit shift the search stops inside the table at the least non-zero field |
| Wheels.SearchTarget | thesky-src/thesky_timer.h:198-211 | with a 6-bit shift the search succeeds; with 63 it succeeds iff the tick is no multiple of 2^14 |
| Wheels.IntendedRounds | thesky-src/thesky_timer.h:164-171 | with a 6-bit shift every round has an outcome, whatever is inserted between |
| Wheels.RoundsCompose | thesky-src/thesky_timer.h:164-171 | two stretches of rounds and inserts are one |
| Location.InsertLocated | thesky-src/thesky_timer.h:225-247 | an insert keeps every queue equal to the pending tasks whose place it is, in insertion order |
| Location.ExecuteLocated | thesky-src/thesky_timer.h:176-187 | the current near queue is exactly what is due now, in insertion order |
| Location.RedistributedAt | thesky-src/thesky_timer.h:214-223 | redistribution fills only empty queues below its level, keeping order, and empties its own |
| Location.ShiftLocated | thesky-src/thesky_timer.h:189-212 | at most one redistribution restores the location invariant after every increment, wrap included |
| Location.PositionZeroOf | thesky-src/thesky_timer.h:189-212 | position 0 of upper wheels 0 to 2 is empty, and of wheel 3 holds only tasks past the next wrap |
| Refinement.FireAgrees | thesky-src/thesky_timer.h:176-187 | draining the near queue is popping everything due from the priority queue |
| Refinement.TurnAgrees | thesky-src/thesky_timer.h:166-171 | a round keeps wheel and priority queue in agreement and leaves nothing overdue |
| Refinement.RunTick | thesky-src/thesky_timer.h:191-191 | the tick is the number of rounds mod 2^32 |
| Refinement.TimelyRunAgrees | thesky-src/thesky_timer.h:122-247 | on every run of reads, inserts and rounds without a late insert, wheel and stable priority queue agree, dispatch log included |
| Thinning.ThinRound | thesky-src/thesky_timer.h:166-247 | a round does the same to a set of tasks whatever else the wheel holds |
| Thinning.ThinRun | thesky-src/thesky_timer.h:122-247 | leaving out the inserts of some calls changes nothing for the tasks of the others, in any run |
| Thinning.WheelRefinesQueue | thesky-src/thesky_timer.h:122-247 | in every run, to the tasks inserted in time the wheel is the priority queue run on their inserts alone |
| Punctuality.LogIsStableSort | thesky-src/thesky_timer.h:156-247 | in every run, what the log says of tasks inserted in time is their stable sort by deadline, cut at the present round |
| Punctuality.DispatchedExactlyOnce | thesky-src/thesky_timer.h:128-187 | in every run a task inserted in time that has come due is in the log exactly once, at the tick it asked for |
| Punctuality.NeverBeforeItsTick | thesky-src/thesky_timer.h:128-187 | in every run nothing is dispatched early, late inserts included, or without having been inserted |
| Punctuality.FiresInItsRound | thesky-src/thesky_timer.h:166-171 | in every run the round that reaches an inserted task's tick is the one that dispatches it |
| Punctuality.DispatchOrder | thesky-src/thesky_timer.h:176-223 | in every run any two tasks inserted in time are dispatched by deadline and, within a deadline, in insertion order |
| Punctuality.UnvisitedPositions | thesky-src/thesky_timer.h:189-212 | in every run the positions that are never redistributed hold only tasks that came too late, and position 0 of wheel 3, of the others, only what is due past the next wrap |
| Runs.InsertedOnce | thesky-src/thesky_timer.h:128-143 | each insert is one call's, due at the rounds it read plus ms / 10, and no call inserts twice |
| Clock.CatchUpComposes | thesky-src/thesky_timer.h:156-174 | any non-decreasing clock readings, with whatever is inserted between the rounds, lead to the same wheel as the last one alone |
| Clock.TickFollowsClock | thesky-src/thesky_timer.h:156-174 | the tick stays the clock distance mod 2^32 iff the clock does not go back (but by whole turns) |
| Clock.AlwaysDriven | thesky-src/thesky_timer.h:156-174 | under a steady clock, calls at any moment included, rounds made since boot are the recorded ticks plus those of the update under way, and never more than the clock read |
| Clock.ReadOff | thesky-src/thesky_timer.h:128-174 | clock, last reading and all that the wheel goes through are those of the run's events: every read, insert and round, at whatever moment it comes |
| Clock.NeverStuck | thesky-src/thesky_timer.h:138-174 | no call waits for an update to finish, and the timer thread always has exactly one next step |
| Clock.QuietUpdate | thesky-src/thesky_timer.h:156-174 | the steps of an update left alone are `timer_update` in one go |
| Clock.NeverTooEarly | thesky-src/thesky_timer.h:128-174 | a task asked for ms at clock c with a lag of L ticks is dispatched by no update that read the clock before c + ms - 18 - 10 L |
| Clock.NeverTooLate | thesky-src/thesky_timer.h:128-174 | and once an update that read c + ms + 10 or later has finished, it has been dispatched, once, if its insert came at most its delay of rounds after the read, between the rounds of an update or not |
| Clock.EighteenIsReached | thesky-src/thesky_timer.h:128-174 | a run in which the first bound is met exactly |
| WrittenShift.WrittenRunSurvives | thesky-src/thesky_timer.h:198-211 | with the written shift a run has an outcome iff it makes fewer than 2^14 rounds, and then it is the intended one |
| Fates.LateCourse | thesky-src/thesky_timer.h:189-247 | a task too late for its block climbs from upper wheel to upper wheel until a zero field strands it or it is on course for its next turn |
| Fates.FateCourse | thesky-src/thesky_timer.h:189-247 | for every expiry and every tick of insertion, when the wheel dispatches the task, if ever |
| Fates.Unseen | thesky-src/thesky_timer.h:133-143 | until a call inserts, the wheel and the log know nothing of its task |
| Fates.InsertFate | thesky-src/thesky_timer.h:133-187 | the fate of every insert, in time or late, in every run: all that the log ever says of it |
| StaleInserts.TimelyFate | thesky-src/thesky_timer.h:128-143 | in time, for any delay that can be asked for, a task is dispatched at its tick |
| StaleInserts.LateFate | thesky-src/thesky_timer.h:133-143 | too late by less than a turn, it is dispatched 256 ticks late, a turn late or never, and which |
| StaleInserts.LostIffNoFate | thesky-src/thesky_timer.h:133-143 | a task is dispatched in no continuation of the run iff it has no fate |
| StaleInserts.LateInsertLostIff | thesky-src/thesky_timer.h:133-143 | a late insert is lost iff time has left its block at an upper wheel and its due tick has a zero field from there to upper wheel 2 |
| StaleInserts.DueInsertServedIff | thesky-src/thesky_timer.h:133-143 | a task due by the next tick is served by the next round iff its insert kept within its delay, or is late by one of the amounts that are caught |
| StaleInserts.LateInsertStranded | thesky-src/thesky_timer.h:133-143 | a late insert goes straight to a position never redistributed iff its level is upper wheel 0 to 2 and its field there is 0 |
| StaleInserts.OneRoundLateLostIff | thesky-src/thesky_timer.h:133-143 | a call for under 10 ms that misses one round is lost iff that is at a block's end and its tick has a zero field at upper wheels 0 to 2 |
| StaleInserts.Stranded | thesky-src/thesky_timer.h:189-212 | in every run position 0 of upper wheels 0 to 2 only ever grows |
| EventLoops.PushedIs | thesky-evpp/event_loop.h:184-222 | the functors queued are those of the run's calls, in order and with their stop marks; the counter is increments less functors called |
| EventLoops.BytesAre | thesky-evpp/evpp_static.cc:4-12 | the pipe holds at most its capacity and what was sent; unless it was full only receiving takes bytes, 128 at most each time |
| EventLoops.WakeAlways | thesky-evpp/event_loop.h:184-223 | a raised flag has a byte, a polled consumer or a sender behind it; queued work has a raised flag or a producer yet to look |
| EventLoops.NoLostWakeup | thesky-evpp/event_loop.h:184-223 | for any producers and interleaving, queued work has a byte in the pipe, a consumer about to swap or a producer on its way |
| EventLoops.QuietMeansDone | thesky-evpp/evpp_static.cc:4-12 | when every thread is out and the pipe is empty, nothing is queued |
| EventLoops.FunctorsConserved | thesky-evpp/jd_loop.h:224-250 | every pushed functor is queued, in one unfinished batch or started once; the counter plus uncounted pushes is the outstanding work |
| EventLoops.CounterExactIff | thesky-evpp/event_loop.h:189-222 | the counter is the outstanding work iff no thread is between push and increment |
| EventLoops.CounterCanBeNegative | thesky-evpp/event_loop.h:189-222 | a run that leaves the counter at -1 |
| EventLoops.PushOrder | thesky-evpp/event_loop.h:212-223 | without `StopInLoop` functors start in push order |
| EventLoops.OldestFirst | thesky-evpp/jd_loop.h:239-250 | with stops and nested batches too, the functor called next is the one of its batch that was queued first |
| EventLoops.EmptyBeforeExit | thesky-evpp/jd_loop.h:224-235 | when the loop is first asked to exit, nothing was queued a moment before |
| EventLoops.StoppedMeansDrained | thesky-evpp/jd_loop.h:224-237 | when `Run` has returned, what has not run is what is still queued; after the exit request there was a moment with nothing queued, so every call up to it has had its functor run |
| EventLoops.NothingRunsAfterReturn | thesky-evpp/jd_loop.h:282-294 | and in no continuation of the run will it |
| EventLoops.WorkStep | thesky-evpp/jd_loop.h:224-250 | every step but a push reduces a measure |
| EventLoops.WorkBounded | thesky-evpp/jd_loop.h:224-250 | so without pushes a run is bounded |
| EventLoops.StopProgress | thesky-evpp/jd_loop.h:282-299 | and after a call of `Stop` it cannot end before `Run` has returned |
| EventLoops.ReturnsOnlyWhenStopped | thesky-evpp/jd_loop.h:282-299 | the loop is asked to exit, and `Run` returns, only after a call of `Stop` |
| EventLoopObject.QueueEffect | thesky-evpp/event_loop.h:184-196 | the producer's steps alone queue the functor, count it, raise the flag and write a byte exactly if the flag was down |
| EventLoopObject.EventLoop.QueueInLoop | thesky-evpp/event_loop.h:184-196 | queued with its stop mark, counted, flag up, one byte more if the flag was down and the pipe not full: uninterrupted, exactly the producer's steps |
| EventLoopObject.HandleEffect | thesky-evpp/evpp_static.cc:4-12 | the consumer's steps alone receive, run the whole queue in order and count it off, each stop in it through both its drain loops |
| EventLoopObject.EventLoop.HandlerFn | thesky-evpp/evpp_static.cc:4-12 | receives up to 128 bytes and runs the queue, or receives nothing and does nothing: uninterrupted, exactly the consumer's steps, stops included |
| EventLoopObject.EventLoop.DoPendingFunctors | thesky-evpp/jd_loop.h:239-250 | runs the whole queue in order, nested stops included, and counts it off |
| EventLoopObject.EventLoop.DrainLoop | thesky-evpp/jd_loop.h:225-232 | the drain loop goes on while other threads queue between its passes, runs all of it in order, and ends with nothing queued |
| EventLoopObject.EventLoop.StopInLoop | thesky-evpp/jd_loop.h:224-237 | drains, asks the loop to exit when all of that has run, drains what came since, and leaves nothing queued |
| EventLoopObject.BatchEffect | thesky-evpp/event_loop.h:219-222 | the machine's batch steps run the batch in order and count it off, stops included |
| ThreadPools.AcceptedIs | thesky-src/thread_pool.h:93-116 | in every run the tasks accepted are those handed over before the stop flag, in order, each with one notification; none is accepted afterwards |
| ThreadPools.Always | thesky-src/thread_pool.h:57-113 | first in first out, covered sleepers and stop flag, in every run |
| ThreadPools.SleepersAreWoken | thesky-src/thread_pool.h:57-113 | while any worker sleeps, queued tasks are matched by workers about to look or notifications owed; after the flag, `notify_all` is owed |
| ThreadPools.ShutdownDrains | thesky-src/thread_pool.h:57-91 | when all workers are gone every task handed over before the flag has been run, taken in order; with no workers none has |
| ThreadPools.JoinedMeansDrained | thesky-src/thread_pool.h:79-91 | and the destructor is done only then |
| ThreadPools.StoppingStep | thesky-src/thread_pool.h:79-111 | after the stop flag every step but a refused enqueue reduces a measure |
| ThreadPools.StoppingProgress | thesky-src/thread_pool.h:79-91 | until joined, a worker or the destructor can step |
| ThreadPools.ShutdownBounded | thesky-src/thread_pool.h:79-111 | a shutdown takes a bounded number of steps whatever is enqueued meanwhile |
| ThreadPoolObject.ThreadPool.Create | thesky-src/thread_pool.h:46-54 | asking for more workers than cores is refused |
| ThreadPoolObject.ThreadPool.Enqueue | thesky-src/thread_pool.h:93-116 | refused once stopping, else queued at the end and exactly one sleeper woken, if any |
| ThreadPoolObject.ThreadPool.Work | thesky-src/thread_pool.h:57-71 | the worker loop alone takes exactly the machine's steps |
| ThreadPoolObject.WorkAloneDrains | thesky-src/thread_pool.h:57-71 | and those run the queue in order and end asleep, or exited if stopping |
| ThreadPoolObject.ThreadPool.BeginStop | thesky-src/thread_pool.h:79-87 | the flag and the wakeup of all sleepers |
| LoopPools.StatusIs | thesky-evpp/event_loop_thread.h:65-231 | in every run start and exit counts are handed out once each, from 1, in the order of counting, and the status is what the last of the stores left, as told by the run's actions alone |
| LoopPools.RunningMeansStarted | thesky-evpp/event_loop_thread.h:213-219 | a pool is running only once every thread has started; until `Stop` it is running once all start hooks are done, and starting before |
| LoopPools.RunningAfterStop | thesky-evpp/event_loop_thread.h:125-127 | `Stop` ends the running state at once, and only a start hook still to come brings it back |
| LoopPools.LastExitMeansStopped | thesky-evpp/event_loop_thread.h:221-224 | once the last exit hook has run the pool is stopped, for good |
| LoopPools.CountsStep | thesky-evpp/event_loop_thread.h:83-87 | exit counts are handed out once each, from 1 |
| LoopPools.CallbackOnce | thesky-evpp/event_loop_thread.h:221-230 | the stop callback runs at most once, only after every loop has returned, and has run when all hooks have |
| LoopPools.StopIsFinalIff | thesky-evpp/event_loop_thread.h:125-167 | a returned `Stop` means all threads have exited iff it was asked to wait or the pool is empty |
| LoopPools.HastyStop | thesky-evpp/event_loop_thread.h:158-166 | a run where it returns, stopped, before any loop starts |
| LoopPools.StatusComesBack | thesky-evpp/event_loop_thread.h:213-219 | in a pool of any size, a run where a late start hook sets the status of a stopped pool back to running |
| LoopPools.StatusIsFinalIff | thesky-evpp/event_loop_thread.h:125-167 | the status a returned `Stop` leaves is the last word iff it was asked to wait or the pool is empty |
| LoopPools.WorkBounded | thesky-evpp/event_loop_thread.h:76-167 | every run is bounded |
| LoopPools.StopProgress | thesky-evpp/event_loop_thread.h:125-167 | and can go on until `Stop` has returned and every thread has exited |
| LoopPoolObject.LoopPool.Start | thesky-evpp/event_loop_thread.h:65-113 | leaves the machine in its initial state, an empty pool running at once |
| LoopPoolObject.LoopPool.GetNextLoop | thesky-evpp/event_loop_thread.h:184-196 | whatever came between, the choices of all calls so far are those of a counter read as unsigned, any two loops differing by at most one for 2^64 calls; base loop unless running |
| LoopPoolObject.LoopPool.StartHookOf | thesky-evpp/event_loop_thread.h:77-81 | counting and hook are the machine's two steps |
| LoopPoolObject.LoopPool.OnThreadStarted | thesky-evpp/event_loop_thread.h:213-219 | the machine's start hook: only the last start sets the status |
| LoopPoolObject.LoopPool.ExitHookOf | thesky-evpp/event_loop_thread.h:83-87 | counting and hook are the machine's two steps |
| LoopPoolObject.LoopPool.OnThreadExited | thesky-evpp/event_loop_thread.h:221-231 | the machine's exit hook: only the last exit sets the status and calls back, once |
| LoopPoolObject.LoopPool.AfterLoop | thesky-evpp/jd_loop.h:425-430 | what a loop thread does once `Run` has returned is the machine's three steps |
| LoopPoolObject.LoopPool.StopUntilWait | thesky-evpp/event_loop_thread.h:125-145 | `Stop` up to its wait is the machine's steps, callback of an empty pool included |
| LoopPoolObject.LoopPool.StopAfterWait | thesky-evpp/event_loop_thread.h:158-167 | and so is the rest of it |
| LoopPoolObject.CounterCounts | thesky-evpp/event_loop_thread.h:190-191 | read as unsigned the counter counts calls across the sign change |
| LoopPoolObject.RoundRobinFair | thesky-evpp/event_loop_thread.h:184-196 | in any prefix of 2^64 calls the choices of two loops differ by at most one |
| LoopPoolObject.FairAcrossWrapIff | thesky-evpp/event_loop_thread.h:190-191 | one call more keeps that iff the number of loops divides 2^64 |

## Left out

- Refinement.TimelyRunAgrees: only runs without late inserts; every run is treated in `Thinning`, and the late tasks themselves in `Fates`.
- EventLoopObject.EventLoop.DoPendingFunctors: nothing is queued while a batch runs in this sequential text (between passes it is, see `DrainLoop`); pushes at any moment are steps of the machine.
- LoopPoolObject.LoopPool.Start: all threads start in one step; a choice made while `threads_` is still being filled is not modelled.
- EventLoops.NoLostWakeup: the flag, counter and pipe are sequentially consistent steps; `IsPendingQueueEmpty` reads the queue without its lock and is one atomic step here.
- LoopPools.CallbackOnce: loops are assumed to return from `Run` only after the pool's `Stop` has reached them, and `Stop` to be called once.
- Clock readings, sleeping, printing and random numbers: the clock is an input, steady where `Clock` says so.
- Futures, packaged tasks, bound arguments and task bodies: a task is an identifier and is assumed to return.
- libevent: the pipe is a byte counter with level-triggered readability, `event_base_loopexit` lets the loop return at any later poll, send errors other than a full pipe do not occur.
- `watcher_` being reset while producers still notify: their send is kept as a step without effect on the stopped consumer.
- `RunInLoop`: it calls the functor at once or is `QueueInLoop`.
- Mismatched parameter names in `jd_loop.h` `QueueInLoop` and the missing `return true` in `event_loop.h` `DoInit`: the evident intent is modelled.
- `EventLoopThread` `Start`/`Join`, `AfterFork`, `ServerStatus` and `IsRunning` beyond the status values stored here.
- The timer thread occupying a worker of the pool: wheel and pool are joined only by the dispatch log.
- Listeners, sockets, TCP server and connection, buffer and the `thesky-net` stubs: input and output plumbing.
