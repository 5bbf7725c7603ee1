# cpsCore: schedulers, stage barrier, serial stack and shared memory

cpsCore is a middleware for cyber-physical systems. This project models the four parts of it in which
the order of steps, or the exact shape of a byte stream, decides whether it works, and proves what those
parts promise over every input, every run and every interleaving.

* **Stage barrier** (`StageBarrier.dfy`, `BarrierTheorems.dfy`, `BarrierProgress.dfy`). One master takes any number of
  runner processes through the stages INIT, NORMAL and FINAL. Every critical section, semaphore operation
  and run of a runner's objects is a step; the theorems hold over all interleavings of the steps.
* **Schedulers** (`EventQueue.dfy`, `MicroSimulator.dfy`, `SimulationTheorems.dfy`,
  `SimulationTermination.dfy`, `RequestTheorems.dfy`, `SchedulerSteps.dfy`, `SchedulerTheorems.dfy`,
  `DispatchTheorems.dfy`, `CallTheorems.dfy`, `MultiThreadingScheduler.dfy`). Both work off a multimap that keeps equal keys in
  order of insertion. The simulator's callbacks are an arbitrary function that looks at the simulator and
  answers with requests to schedule, cancel, change a period or stop. The threaded scheduler is a dispatcher
  and one thread for each body, interleaved step by step with callers and with handles that cancel at any
  moment, and with waits that may return without a notification.
* **Wire stack** (`Bytes.dfy`, `Sequences.dfy`, `Hamming74.dfy`, `Serialization.dfy`, `Archives.dfy`, `Framing.dfy`,
  `SerialHandler.dfy`, `DelimiterTheorems.dfy`, `ReceptionTheorems.dfy`). Values are stored into binary
  archives, packets get a CRC header, Hamming(7,4) coding and a delimiter, and come back out of a byte stream
  that may be split anywhere.
* **Shared-memory channel** (`SharedMemorySteps.dfy`, `SharedMemoryTheorems.dfy`, `ChannelTheorems.dfy`,
  `SharedMemory.dfy`). A publisher writes a slot of shared memory byte by byte under an exclusive lock;
  listeners copy it byte by byte under a shared lock after a condition has woken them.

The objects of the original are classes whose methods change their fields in place; each method is proved
to take exactly the step, or to compute exactly the value, that the theorems speak about. Time is counted
in ticks (the clock's smallest unit) as an unbounded integer, and so are sizes and counters.

Seven properties one might expect are false of the code. Each has a run or an input that shows it, and the
exact condition under which the code does keep it:

* A wait of the barrier that returns without a notification makes a runner repeat a stage, and the barrier
  then lets other runners fall behind (`OrderExact`, `SpuriousWakeupBreaksBarrier`): the wait is guarded by
  an `if` instead of a loop. No runner is forgotten even then, and every run still ends (`NoLostWakeup`,
  `EveryRunEnds`).
* A callback that schedules into the past makes the simulator erase the new event instead of the one it
  has just called, which is then called again (`ErasesWhatItCalled`, `NegativeDelayRepeatsOneShot`). The
  threaded scheduler does the same with a negative period (`EraseHitsTheHandledEntry`,
  `MissedEraseHitsTheHandledEntry`).
* A pass of the threaded scheduler's dispatch loop need not end, because any period is accepted. Left
  alone it ends if and only if no due body has a period that is not positive and is either not cancelled,
  or cancelled while its thread holds the mutex (`PassEndsExactly`); among other threads its length is
  bounded if and only if every due body has a positive period or none, or is cancelled and has no live
  thread (`PassBoundedExactly`). `NonpositivePeriodSpins` gives a run for every such period. The simulator
  does not return for the same reason (`InertReturnsExactly`, `NonpositivePeriodNeverReturns`), nor when
  every callback schedules, among other things, something without a delay (`ZeroDelayNeverReturns`).
* A due instant of a periodic body can be lost without being counted as a missed deadline: it notifies a
  thread that has been started or woken, but has not come to hold its mutex yet (`UnheardDueInstant`).
  `DueInstantOutcome` says where the thread must be for a due instant to be heard, missed or lost, and
  `DueInstantsAccountedFor` that no others are.
* A payload whose body contains the delimiter is cut apart (`FramingExact`). Hamming coding prevents this
  for every payload exactly when the delimiter has a byte that is no codeword; the default delimiter `*-*`
  has none (`HammingDelimiterExact`, `DefaultDelimiterIsUnsafe`). When noise flips a bit in each codeword,
  which the code corrects, the delimiter needs a byte with bit 7 set (`NoisyDelimiterExact`); and if the
  noise may flip bit 7 as well, which the code does not even notice, no delimiter is safe
  (`NoDelimiterIsSafe`).
* A spurious wakeup can make a listener of the shared-memory channel deliver a packet twice, or an empty
  packet before there is any (`SpuriousWakeupDelivers`): the wait is not followed by a test for news. It
  cannot if and only if at that moment the listener has not seen all that is published, or a publication
  or the teardown is under way or done (`SpuriousHarmlessExactly`); `LossyOrderedChannel` covers all runs
  whose spurious wakeups meet this condition.
* A listener that is between two waits when the publisher sends its last notification misses the teardown
  and then never ends (`MissedExactly`, `MissedNeverEnds`, and `TimeoutMissesTeardown` for a run), because a
  timeout goes back to waiting without a look at `active`.

## Model

| member | source | states |
|---|---|---|
| StageBarrier.Synchronizer.PublishStage | src/Synchronization/SynchronizedRunnerMaster.cpp:84-87 | the published stage, every waiting runner notified and nothing else changed |
| StageBarrier.Synchronizer.CollectOne | src/Synchronization/SynchronizedRunnerMaster.cpp:94-98 | one post of the semaphore is taken and counted, or the master gives up |
| StageBarrier.Synchronizer.StageFinished | src/Synchronization/SynchronizedRunnerMaster.cpp:61-75 | only after as many posts as there are runners does the master go on to the next stage, or return false after FINAL |
| StageBarrier.Synchronizer.BroadcastFailure | src/Synchronization/SynchronizedRunnerMaster.cpp:99-104 | the failure flag is set, every waiting runner is notified, and `runAllStages` returns true |
| StageBarrier.Synchronizer.EnterSection | src/Synchronization/SynchronizedRunner.cpp:51-61 | a runner returns on failure, waits if it has run the current stage, and otherwise begins it |
| StageBarrier.Synchronizer.LeaveWait | src/Synchronization/SynchronizedRunner.cpp:61-66 | after the wait a runner returns on failure and otherwise begins the current stage without comparing it again |
| StageBarrier.Synchronizer.RunObjects | src/Synchronization/SynchronizedRunner.cpp:68-76 | an error makes the runner return true without a post |
| StageBarrier.Synchronizer.PostFinished | src/Synchronization/SynchronizedRunner.cpp:76-81 | one post for the stage just run; after FINAL the runner returns false |
| StageBarrier.Synchronizer.Interleave | src/Synchronization/SynchronizedRunner.cpp:40-82 | the object goes through any possible interleaving of the steps to exactly the state the step functions give |
| BarrierTheorems.RunKeepsInv | src/Synchronization/SynchronizedRunnerMaster.cpp:77-108 | the barrier's invariant, in which posts taken and pending add up to the runners done with the stage, holds along every run |
| BarrierTheorems.BarrierSafety | src/Synchronization/SynchronizedRunnerMaster.cpp:94-107 | what a runner has begun is a prefix of INIT, NORMAL, FINAL, and none begins stage k+1 before every runner has posted the first k stages, each exactly once |
| BarrierTheorems.StageSuccess | src/Synchronization/SynchronizedRunnerMaster.cpp:94-107 | when `runStage` returns false, every runner has posted that stage |
| BarrierTheorems.TotalSuccess | src/Synchronization/SynchronizedRunnerMaster.cpp:61-75 | when `runAllStages` has returned false, every runner has run all three stages and returned false |
| BarrierProgress.NoLostWakeup | src/Synchronization/SynchronizedRunner.cpp:54-66 | in every run, also with spurious wakeups, a runner waiting un-notified has run the current stage, no failure has been broadcast and the master has not returned |
| BarrierProgress.EveryRunEnds | src/Synchronization/SynchronizedRunnerMaster.cpp:61-108 | every run of n runners has at most 17n+6 steps, and four more for each spurious wakeup; when no step is left `runAllStages` and every runner have returned |
| BarrierProgress.TimeOutNeverForced | src/Synchronization/SynchronizedRunnerMaster.cpp:94-104 | in a run without spurious wakeups, if a timeout is all that can happen before the master is done, some runner's objects have reported an error |
| BarrierProgress.SmoothRunSucceeds | src/Synchronization/SynchronizedRunnerMaster.cpp:61-108 | a run without errors, timeouts and spurious wakeups that can only go on by one of the latter two has ended: `runAllStages` and every runner have returned false and all three stages were run |
| BarrierProgress.NobodyLeftBehind | src/Synchronization/SynchronizedRunner.cpp:51-82 | once `runAllStages` has returned, with either result and in any run, no spurious wakeup is possible any more, at most six steps per runner are left, three if there never was one, and then every runner has returned |
| BarrierProgress.PublishedIsBegun | src/Synchronization/SynchronizedRunner.cpp:59-66 | a runner that waits when a stage is published begins that stage with its next step, in any continuation, unless a failure has been broadcast by then |
| BarrierProgress.ErrorIsReported | src/Synchronization/SynchronizedRunner.cpp:68-76 | an error in a runner's objects makes it return true, with the stage begun and not posted, and changes nothing else: the semaphore stays as it is |
| BarrierProgress.FailStop | src/Synchronization/SynchronizedRunnerMaster.cpp:61-107 | in any run in which some runner's objects report an error, the stage they were in stays the last anybody begins, `runAllStages` does not return false, and at the end of the run, which EveryRunEnds bounds, it has returned true |
| BarrierProgress.TrueExactlyOnTimeOut | src/Synchronization/SynchronizedRunnerMaster.cpp:94-107 | at the end of any run, also with spurious wakeups, `runAllStages` has returned true if there was a timeout and false otherwise |
| BarrierProgress.FailureStays | src/Synchronization/SynchronizedRunnerMaster.cpp:99-104 | the failure flag is never taken back and no runner begins a stage while it is set |
| BarrierTheorems.OrderExact | src/Synchronization/SynchronizedRunner.cpp:59-65 | the runners keep to INIT, NORMAL, FINAL if and only if no wait returned without a notification |
| BarrierTheorems.SpuriousWakeupBreaksBarrier | src/Synchronization/SynchronizedRunner.cpp:59-65 | a concrete run of two runners in which one spurious wakeup lets a runner begin NORMAL before the other has begun INIT |
| EventQueue.InsertSorted | src/Utilities/Scheduler/MicroSimulator.cpp:45-48 | inserting keeps the queue in order of time and, among equal times, of insertion |
| EventQueue.InsertSecondTime | src/Utilities/Scheduler/MultiThreadingScheduler.cpp:254-255 | a body put back into the queue stands behind the entry it still has there |
| MicroSimulator.MicroSimulator.Schedule | src/Utilities/Scheduler/MicroSimulator.cpp:42-49 | a one-shot enters the queue at the present plus its delay |
| MicroSimulator.MicroSimulator.SchedulePeriodic | src/Utilities/Scheduler/MicroSimulator.cpp:51-58 | a periodic event enters the queue at the present plus its delay |
| MicroSimulator.MicroSimulator.Cancel | src/Utilities/Scheduler/Event.cpp:23-30 | only the flag of that body is set; a handle to no body does nothing |
| MicroSimulator.MicroSimulator.IsCanceled | src/Utilities/Scheduler/Event.cpp:32-40 | true when the body is cancelled or no longer in the queue, and only then |
| MicroSimulator.MicroSimulator.ChangePeriod | src/Utilities/Scheduler/Event.cpp:42-56 | the period changes only where there was one |
| MicroSimulator.MicroSimulator.Stop | src/Utilities/Scheduler/MicroSimulator.cpp:60-66 | only the stop flag is set |
| MicroSimulator.MicroSimulator.RunBody | src/Utilities/Scheduler/MicroSimulator.cpp:110-110 | the callback's requests are carried out one by one in order |
| MicroSimulator.MicroSimulator.Call | src/Utilities/Scheduler/MicroSimulator.cpp:110-114 | the period is read after the callback, and the body goes back at the present plus it |
| MicroSimulator.MicroSimulator.Advance | src/Utilities/Scheduler/MicroSimulator.cpp:105-117 | one turn of the loop; a cancelled entry is dropped uncounted |
| MicroSimulator.MicroSimulator.RunLoop | src/Utilities/Scheduler/MicroSimulator.cpp:81-118 | watched for any number of turns, the loop has returned or is still at work exactly as Watched says, in the state Watched gives |
| MicroSimulator.MicroSimulator.Simulate | src/Utilities/Scheduler/MicroSimulator.cpp:68-122 | any call, watched for any number of turns, has returned or not and changed the state exactly as its step function says; the result is the number of calls added to the trace |
| MicroSimulator.WatchedIs | src/Utilities/Scheduler/MicroSimulator.cpp:81-121 | what is seen of a call in so many turns: its outcome where it has returned by then, and otherwise the state after that many turns |
| SimulationTheorems.SplitSimulation | src/Utilities/Scheduler/MicroSimulator.cpp:68-122 | simulating up to an instant and then on to the end makes the calls, and leaves the queue, bodies and clock, of simulating to the end at once |
| SimulationTheorems.StoppedRests | src/Utilities/Scheduler/MicroSimulator.cpp:100-104 | once stopped, a simulation makes no further call |
| SimulationTheorems.JoinSimulations | src/Utilities/Scheduler/MicroSimulator.cpp:68-122 | if both parts return, so does the whole |
| SimulationTheorems.AfterCallOrderly | src/Utilities/Scheduler/MicroSimulator.cpp:107-117 | without negative delays the queue stays in order through a call and the entry called stays at its head |
| SimulationTheorems.SimulationInOrder | src/Utilities/Scheduler/MicroSimulator.cpp:81-121 | after any number of turns, whether or not the call ever returns, calls have been made in order of time, first come first served, nothing left is earlier, and the clock has not gone back |
| SimulationTheorems.SimulationComplete | src/Utilities/Scheduler/MicroSimulator.cpp:81-121 | an unstopped call that returns ends at its end time with everything left strictly later |
| SimulationTheorems.ErasesWhatItCalled | src/Utilities/Scheduler/MicroSimulator.cpp:110-117 | the entry erased is the one called if and only if no delay asked for and no period is negative |
| SimulationTheorems.NegativeDelayRepeatsOneShot | src/Utilities/Scheduler/MicroSimulator.cpp:110-117 | a fresh simulator with one one-shot, which a negative delay asked for in its callback makes it call twice |
| SimulationTheorems.CancelledNeverCalled | src/Utilities/Scheduler/MicroSimulator.cpp:107-117 | a cancelled body stays cancelled and is never called again, after any number of turns of a call that may never return |
| SimulationTheorems.CancelledStaysSo | src/Utilities/Scheduler/MicroSimulator.cpp:107-121 | nor by a call that returns, after which it is cancelled still, and so for the next |
| RequestTheorems.CancelWorks | src/Utilities/Scheduler/Event.cpp:23-30 | after a request to cancel, no call of that body is made, after any number of turns |
| RequestTheorems.CancelInCallbackWorks | src/Utilities/Scheduler/MicroSimulator.cpp:105-117 | nor when a callback asks for it, of another body or of its own |
| RequestTheorems.StopWorks | src/Utilities/Scheduler/MicroSimulator.cpp:60-66 | after a request to stop, no turn is made |
| RequestTheorems.StopInCallbackWorks | src/Utilities/Scheduler/MicroSimulator.cpp:100-117 | when a callback asks for it, its call is the last |
| RequestTheorems.PastIsQuiet | src/Utilities/Scheduler/MicroSimulator.cpp:81-121 | simulating to an instant that has passed makes no call and sets the clock back to it |
| RequestTheorems.BodyStays | src/Utilities/Scheduler/MicroSimulator.cpp:105-117 | a body keeps the callback it was scheduled with, and whether it is periodic |
| RequestTheorems.CallsShareState | src/Utilities/Scheduler/MicroSimulator.cpp:105-110 | each call finds the shared state as the call before has left it, and the clock at its due time |
| RequestTheorems.DueIsCalled | src/Utilities/Scheduler/MicroSimulator.cpp:81-118 | every entry due by the end of a simulation that is not stopped is called unless its body is cancelled, and nothing is called that was not in the queue |
| RequestTheorems.NewInCallback | src/Utilities/Scheduler/MicroSimulator.cpp:42-58 | what a callback schedules is in the queue after its turn, due after the delay asked for, with the callback asked for |
| RequestTheorems.ScheduledIsCalled | src/Utilities/Scheduler/MicroSimulator.cpp:42-58 | what is scheduled is called after its delay by a simulation that goes that far, unless it is stopped or the body cancelled |
| RequestTheorems.OneShotOnce | src/Utilities/Scheduler/MicroSimulator.cpp:105-117 | a body without a period is called only as often, and at the times, it was queued for |
| RequestTheorems.NextCall | src/Utilities/Scheduler/MicroSimulator.cpp:110-114 | a periodic body is due again one period after its call, the one its own callback asked for last if it did |
| RequestTheorems.ChangedPeriodRuns | src/Utilities/Scheduler/Event.cpp:42-56 | after a period has been changed the next call is at the time already set and all further ones the new period apart |
| SimulationTheorems.SimulationTerminates | src/Utilities/Scheduler/MicroSimulator.cpp:81-118 | with delays and periods of at least a tick and bounded callbacks the loop ends within the weight of its queue |
| SimulationTermination.NonpositivePeriodNeverReturns | src/Utilities/Scheduler/MicroSimulator.cpp:81-118 | a due body whose period is not positive, which no callback cancels, re-times or saves by stopping, keeps `simulate` from returning, whatever else the callbacks do |
| SimulationTermination.ZeroDelayNeverReturns | src/Utilities/Scheduler/MicroSimulator.cpp:81-118 | so does every callback's asking for something new without a delay, whatever else it asks for short of cancelling and stopping, when one live event is due |
| SimulationTermination.InertReturnsExactly | src/Utilities/Scheduler/MicroSimulator.cpp:81-121 | with callbacks that ask for nothing `simulate` returns if and only if no due uncancelled body has a period that is not positive |
| SimulationTheorems.InstantsAre | src/Utilities/Scheduler/MicroSimulator.cpp:111-114 | the instants t, t+p, t+2p, ... up to the end, their number floor((end-t)/p)+1, and none beyond |
| SimulationTheorems.PeriodicClosedForm | src/Utilities/Scheduler/MicroSimulator.cpp:81-118 | with inert callbacks each periodic event runs exactly at those instants and the number of calls is the sum of their numbers |
| RequestTheorems.ScheduledLoadRuns | src/Utilities/Scheduler/MicroSimulator.cpp:51-118 | the same from the requests on: any periodic events on a new simulator run at their delays and every period asked for after that, with the callbacks asked for |
| MultiThreadingScheduler.MultiThreadingScheduler.CreateSchedule | src/Utilities/Scheduler/MultiThreadingScheduler.cpp:283-302 | a delay counts from the start of the scheduler before it, and from the moment of the call afterwards |
| MultiThreadingScheduler.MultiThreadingScheduler.ScheduleBody | src/Utilities/Scheduler/MultiThreadingScheduler.cpp:24-52 | the new body enters the queue with that key |
| MultiThreadingScheduler.MultiThreadingScheduler.CancelBody | src/Utilities/Scheduler/Event.cpp:23-30 | only the body's flag is set |
| MultiThreadingScheduler.MultiThreadingScheduler.Advance | src/Utilities/Scheduler/MultiThreadingScheduler.cpp:304-314 | one step of a body's thread, periodic or one-shot |
| MultiThreadingScheduler.MultiThreadingScheduler.NotifyIfFree | src/Utilities/Scheduler/MultiThreadingScheduler.cpp:211-217 | the thread is notified if and only if no thread holds the execution mutex |
| MultiThreadingScheduler.MultiThreadingScheduler.HandleMissedDeadline | src/Utilities/Scheduler/MultiThreadingScheduler.cpp:334-342 | the body goes back one period after the head's key, and then the head is erased |
| MultiThreadingScheduler.MultiThreadingScheduler.TakeHead | src/Utilities/Scheduler/MultiThreadingScheduler.cpp:195-208 | the head is taken only when it is due; the branch follows from period and isStarted |
| MultiThreadingScheduler.MultiThreadingScheduler.DispatchStep | src/Utilities/Scheduler/MultiThreadingScheduler.cpp:195-274 | one step of the dispatch loop, on each of its branches |
| MultiThreadingScheduler.MultiThreadingScheduler.RunPass | src/Utilities/Scheduler/MultiThreadingScheduler.cpp:165-274 | woken up in any reachable state whose due bodies are tame, which PassBoundedExactly shows to be necessary, the dispatcher comes to an end whatever the other threads do in between, and then nothing in the queue is due |
| MultiThreadingScheduler.MultiThreadingScheduler.Interleave | src/Utilities/Scheduler/MultiThreadingScheduler.cpp:147-314 | the object goes through any possible interleaving to exactly the state the step functions give |
| SchedulerTheorems.HandledOk | src/Utilities/Scheduler/MultiThreadingScheduler.cpp:204-273 | every branch of the dispatcher keeps the invariant of the body it is at |
| SchedulerTheorems.RunKeepsInv | src/Utilities/Scheduler/MultiThreadingScheduler.cpp:147-314 | the invariant of queue and bodies holds along every run, whatever the periods |
| SchedulerTheorems.CallsNeverOverlap | src/Utilities/Scheduler/MultiThreadingScheduler.cpp:204-249 | in every run, whatever the periods, a body has at most one thread ever and at most one entry at rest, exactly one if it is periodic and not cancelled; a one-shot is called at most once |
| SchedulerTheorems.NoDrift | src/Utilities/Scheduler/MultiThreadingScheduler.cpp:251-256 | every key in the queue is the body's first key plus its number of due instants times its period, on the regular and on the missed-deadline path; with a negative period the body stays at its first key |
| SchedulerTheorems.RunPersists | src/Utilities/Scheduler/Event.cpp:23-30 | along a run first key and period stay, and cancellation is never taken back |
| SchedulerTheorems.DueInstantsAccountedFor | src/Utilities/Scheduler/MultiThreadingScheduler.cpp:204-249 | due instants are starts plus notifications plus missed deadlines plus those that found the body cancelled; before cancellation each of them, and each spurious wakeup, has led to a call or is about to, unless it was missed or unheard |
| SchedulerTheorems.OneCallAfterCancel | src/Utilities/Scheduler/MultiThreadingScheduler.cpp:307-313 | after cancellation a body is called at most once more, whatever its period |
| SchedulerTheorems.CanceledLeavesQueue | src/Utilities/Scheduler/MultiThreadingScheduler.cpp:225-251 | a cancelled body whose mutex is free at a due instant leaves the queue for good |
| SchedulerTheorems.CanceledLeavesAtOnce | src/Utilities/Scheduler/MultiThreadingScheduler.cpp:225-230 | with the next two steps of the dispatcher, if its thread could be notified |
| SchedulerTheorems.MissedStaysQueued | src/Utilities/Scheduler/MultiThreadingScheduler.cpp:218-223 | a due instant that finds the mutex taken puts the body back one period later, cancelled or not; a negative period leaves it where it was |
| CallTheorems.PendingIsCalled | src/Utilities/Scheduler/MultiThreadingScheduler.cpp:304-314 | a thread that was started or woken calls its body with exactly the third of its own steps (that of a one-shot with the first), whatever else happens short of cancelling the body, and until then can always make the next |
| CallTheorems.ServedIsCalled | src/Utilities/Scheduler/MultiThreadingScheduler.cpp:204-244 | every due instant that starts the thread, or notifies it while it waits, leads to a call with at most three steps of that thread, in every interleaving |
| CallTheorems.ServedCanCall | src/Utilities/Scheduler/MultiThreadingScheduler.cpp:204-244 | and these steps can be made at once, with exactly one more call |
| CallTheorems.SpuriousCanCall | src/Utilities/Scheduler/MultiThreadingScheduler.cpp:308-312 | so can those after a wait that returns without a notification |
| CallTheorems.DueInstantOutcome | src/Utilities/Scheduler/MultiThreadingScheduler.cpp:208-223 | a due instant wakes the thread exactly where it waits, is missed where it is between the mutex and the wait, and goes unheard where it has not come to hold the mutex yet or has ended |
| CallTheorems.UnheardDueInstant | src/Utilities/Scheduler/MultiThreadingScheduler.cpp:208-217 | for every period a run from the initial state in which the second due instant is lost in this way |
| CallTheorems.CallsAfterCancelExactly | src/Utilities/Scheduler/MultiThreadingScheduler.cpp:225-265 | the most calls a cancellation leaves, exactly: one if the thread has already read that its body is not cancelled, or is, or is about to be, that of a one-shot; none otherwise; and no thread is started but one the dispatcher was about to start |
| CallTheorems.CanceledBeforeDue | src/Utilities/Scheduler/MultiThreadingScheduler.cpp:225-265 | a body cancelled before its first due instant is never called and never gets a thread |
| CallTheorems.CanceledThreadEnds | src/Utilities/Scheduler/MultiThreadingScheduler.cpp:305-314 | the thread of a cancelled periodic body, once started or woken, makes no call and ends with exactly the fourth of its own steps |
| CallTheorems.KeysAsRequested | src/Utilities/Scheduler/MultiThreadingScheduler.cpp:39-52 | from the request on, every key of a body is the key asked for plus a whole number of the periods asked for |
| CallTheorems.NeverCalledEarly | src/Utilities/Scheduler/MultiThreadingScheduler.cpp:165-199 | spurious wakeups aside, the n-th call of a body is not made before some clock reading has reached the starting time plus its key plus n-1 periods |
| DispatchTheorems.NeverStuck | src/Utilities/Scheduler/MultiThreadingScheduler.cpp:195-274 | inside the dispatch loop the dispatcher can always go on |
| DispatchTheorems.RoundDone | src/Utilities/Scheduler/MultiThreadingScheduler.cpp:251-273 | handling an entry lowers the number of rounds left in the queue, although the body is put back |
| DispatchTheorems.DispatchTerminates | src/Utilities/Scheduler/MultiThreadingScheduler.cpp:195-274 | if every due body is tame, the dispatcher makes no more steps between two wakeups than a measure of the queue, under any interference |
| DispatchTheorems.NothingDueIsLeft | src/Utilities/Scheduler/MultiThreadingScheduler.cpp:195-198 | when the dispatcher goes back to waiting no entry is due |
| DispatchTheorems.NeverEarly | src/Utilities/Scheduler/MultiThreadingScheduler.cpp:195-199 | no entry is handled before its due instant, and each is then the first of the queue, by key and then by insertion |
| DispatchTheorems.PassInOrder | src/Utilities/Scheduler/MultiThreadingScheduler.cpp:195-273 | unless some period is negative, a pass erases exactly the entries it handles, in order of key, first come first served |
| DispatchTheorems.EraseHitsTheHandledEntry | src/Utilities/Scheduler/MultiThreadingScheduler.cpp:251-273 | the entry erased is the one handled if and only if the period is not negative |
| DispatchTheorems.MissedEraseHitsTheHandledEntry | src/Utilities/Scheduler/MultiThreadingScheduler.cpp:334-342 | after a missed deadline too the entry erased is the one handled if and only if the period is not negative |
| DispatchTheorems.SpinsUntilCanceled | src/Utilities/Scheduler/MultiThreadingScheduler.cpp:195-273 | a due body whose period is not positive keeps the dispatcher at work until it is cancelled, whatever else happens |
| DispatchTheorems.DispatchNeedNotEnd | src/Utilities/Scheduler/MultiThreadingScheduler.cpp:195-273 | left alone with such a body, or with a cancelled one whose thread holds the mutex, the dispatcher can make any number of steps |
| DispatchTheorems.PassEndsExactly | src/Utilities/Scheduler/MultiThreadingScheduler.cpp:195-274 | left alone, a pass ends if and only if no due body has a period that is not positive and is uncancelled or cancelled with its mutex taken |
| DispatchTheorems.PassBoundedExactly | src/Utilities/Scheduler/MultiThreadingScheduler.cpp:195-274 | among other threads the steps of a pass are bounded, for all they may do, if and only if every due body has a positive period or none, or is cancelled and not started |
| DispatchTheorems.NonpositivePeriodSpins | src/Utilities/Scheduler/MultiThreadingScheduler.cpp:39-52 | scheduling one body at zero with any period of zero or less leads there from the initial state |
| Hamming74.CodewordUnique | src/Utilities/DataPresentation/hamming74.cpp:17-30 | each nibble has exactly one codeword in the sense of the three parity groups |
| Hamming74.PerfectCode | src/Utilities/DataPresentation/hamming74.cpp:44-55 | every word is within one flip of exactly one codeword, and the syndrome finds it |
| Hamming74.EncodeNibble | src/Utilities/DataPresentation/hamming74.cpp:9-31 | the result is a codeword that carries the nibble |
| Hamming74.DecodeNibble | src/Utilities/DataPresentation/hamming74.cpp:33-64 | the data of the nearest codeword, and whether the word differed from it |
| Hamming74.Encode | src/Utilities/DataPresentation/hamming74.cpp:66-77 | two codewords for each byte, low nibble first |
| Hamming74.Decode | src/Utilities/DataPresentation/hamming74.cpp:79-100 | the joined nibbles of the nearest codewords, and a flag for each word |
| Hamming74.Merge | src/Utilities/DataPresentation/hamming74.cpp:90-99 | nibbles joined in pairs, a last odd one alone |
| Hamming74.EncodedIs | src/Utilities/DataPresentation/hamming74.cpp:66-77 | byte k becomes the codewords 2k and 2k+1, of its low nibble and of its high nibble |
| Hamming74.DecodedIs | src/Utilities/DataPresentation/hamming74.cpp:79-100 | any words, also an odd number and not only codewords, decode to bytes with these nibbles, a last odd word into a low nibble |
| Hamming74.SingleErrorCorrection | src/Utilities/DataPresentation/hamming74.cpp:66-100 | any string survives one flip in the low seven bits of each codeword, and exactly the words hit are flagged |
| Hamming74.RoundTrip | tests/Utilities/DataPresentation/DataPresentationTest.cpp:223-236 | decoding an encoded string gives the string |
| Hamming74.EncodedAreCodewords | src/Utilities/DataPresentation/hamming74.cpp:66-77 | an encoded string consists of codewords |
| Hamming74.EncodeOfDecode | src/Utilities/DataPresentation/hamming74.cpp:66-100 | every even-length string of codewords is the encoding of what it decodes to |
| Framing.FeedConcat | src/Utilities/IDC/NetworkLayer/Serial/SerialHandler.cpp:125-157 | how the stream is split on arrival does not matter |
| Framing.FramableIsFirstCompletion | src/Utilities/IDC/NetworkLayer/Serial/SerialHandler.cpp:145-156 | the condition on delimiter and body says that the message completes a frame and no proper prefix does |
| Framing.UnframableSpoils | src/Utilities/IDC/NetworkLayer/Serial/SerialHandler.cpp:145-156 | a body that fails the condition never comes out as the first frame, whatever follows it |
| Framing.FramingExact | src/Utilities/IDC/NetworkLayer/Serial/SerialHandler.cpp:133-157 | bodies cross the wire unchanged if and only if each of them meets the condition |
| Framing.FramableBodiesArrive | src/Utilities/IDC/NetworkLayer/Serial/SerialHandler.cpp:133-157 | and then nothing is left in the buffers |
| SerialHandler.TailComparison | src/Utilities/IDC/NetworkLayer/Serial/SerialHandler.cpp:145-151 | the clipped substr and erase test for the delimiter and cut it off, except that the bare delimiter never matches |
| SerialHandler.SerialHandler.SendPacket | src/Utilities/IDC/NetworkLayer/Serial/SerialHandler.cpp:52-94 | header, coding and delimiter go onto the wire and into the statistics; a receive-only handler sends nothing |
| SerialHandler.SerialHandler.JudgePacket | src/Utilities/IDC/NetworkLayer/Serial/SerialHandler.cpp:165-181 | under CRC a packet whose header does not match is counted as corrupted and goes no further; anything else is delivered, without its header |
| SerialHandler.SerialHandler.HandlePacket | src/Utilities/IDC/NetworkLayer/Serial/SerialHandler.cpp:159-181 | a packet string is decoded, checked, counted and delivered, or counted as corrupted |
| SerialHandler.SerialHandler.Receive | src/Utilities/IDC/NetworkLayer/Serial/SerialHandler.cpp:114-182 | one call of the handler is one step of the framing machine, and new frames are handled in order |
| SerialHandler.SerialHandler.Arrive | src/Utilities/IDC/NetworkLayer/Serial/SerialHandler.cpp:125-131 | bytes in any portions are framed as the machine does it byte by byte |
| SerialHandler.HeaderIsSerialized | src/Utilities/IDC/NetworkLayer/Serial/SerialHandler.cpp:63-69 | putting the header before the message is serializing it as a structure of two bytes |
| SerialHandler.HeaderIsExtracted | src/Utilities/IDC/NetworkLayer/Serial/SerialHandler.cpp:167-170 | taking it off is loading that structure, where the archive holds enough bytes |
| SerialHandler.BodyIsHandled | src/Utilities/IDC/NetworkLayer/Serial/SerialHandler.cpp:159-181 | what the sender assembled is delivered as the payload and counted as received |
| SerialHandler.NoisyBodyIsHandled | src/Utilities/IDC/NetworkLayer/Serial/SerialHandler.cpp:159-181 | under Hamming coding also when the line has flipped one bit in each codeword |
| SerialHandler.SerialRoundTrip | src/Utilities/IDC/NetworkLayer/Serial/SerialHandler.cpp:52-182 | for every setting, payloads with framable bodies are delivered in order, none corrupted, and the byte counts differ by one delimiter each |
| SerialHandler.SendAll | src/Utilities/IDC/NetworkLayer/Serial/SerialHandler.cpp:52-94 | packets sent one after the other, with their statistics |
| SerialHandler.DeliverAll | src/Utilities/IDC/NetworkLayer/Serial/SerialHandler.cpp:114-182 | a stream handed over in any portions is framed and handled as a whole |
| SerialHandler.Link | src/Utilities/IDC/NetworkLayer/Serial/SerialHandler.cpp:52-182 | from one handler to another over a line with any portioning: the payloads arrive and the statistics of both sides agree |
| ReceptionTheorems.WrongCrc | src/Utilities/IDC/NetworkLayer/Serial/SerialHandler.cpp:167-178 | a packet string of two bytes or more whose first two, decoded, are not the CRC of the rest is corrupted |
| ReceptionTheorems.CorruptedIsRejected | src/Utilities/IDC/NetworkLayer/Serial/SerialHandler.cpp:167-178 | it is not delivered, and counted as corrupted with all its bytes |
| ReceptionTheorems.GenuineIsDelivered | src/Utilities/IDC/NetworkLayer/Serial/SerialHandler.cpp:159-181 | one that carries a payload behind its CRC delivers that payload |
| ReceptionTheorems.StreamIsSortedOut | src/Utilities/IDC/NetworkLayer/Serial/SerialHandler.cpp:114-182 | from any byte stream a fresh receiver delivers exactly the payloads of the genuine packets cut out of it, in order; all others are corrupted, and counted so with their bytes; packets received are those delivered plus those corrupted |
| ReceptionTheorems.ReceiveStream | src/Utilities/IDC/NetworkLayer/Serial/SerialHandler.cpp:114-182 | the same of the object, with the stream in any portions |
| DelimiterTheorems.HammingDelimiterExact | src/Utilities/IDC/NetworkLayer/Serial/SerialHandler.cpp:71-77 | under Hamming coding every payload is framable if and only if some byte of the delimiter is no codeword |
| DelimiterTheorems.HammingRoundTrip | src/Utilities/IDC/NetworkLayer/Serial/SerialHandler.cpp:52-182 | with such a delimiter all payloads with a non-empty body, under CRC all payloads, are delivered in order, none corrupted, and the byte counts differ by one delimiter each |
| DelimiterTheorems.DefaultDelimiterIsUnsafe | include/cpsCore/Utilities/IDC/NetworkLayer/Serial/SerialHandlerParams.h:36-36 | the default delimiter is made of codewords, and some payload is cut by it |
| DelimiterTheorems.NoisyBodiesArrive | src/Utilities/IDC/NetworkLayer/Serial/SerialHandler.cpp:52-182 | whatever single low bit of each codeword of each body the line flips, and whatever it does to bit 7: if the disturbed bodies are framable, all payloads are delivered in order, none corrupted |
| DelimiterTheorems.NoisyDelimiterExact | src/Utilities/IDC/NetworkLayer/Serial/SerialHandler.cpp:133-177 | every disturbed body is framable, for every payload and every such noise that leaves bit 7 alone, if and only if some byte of the delimiter has bit 7 set |
| DelimiterTheorems.NoisyRoundTrip | src/Utilities/IDC/NetworkLayer/Serial/SerialHandler.cpp:52-182 | with such a delimiter all payloads with a non-empty body survive any such noise end to end |
| DelimiterTheorems.NoDelimiterIsSafe | src/Utilities/DataPresentation/hamming74.cpp:44-55 | for every delimiter some noise that also hits bit 7, and that decoding would correct, cuts some payload |
| Serialization.RoundTrip | include/cpsCore/Utilities/DataPresentation/detail/BasicSerializationImpl.hpp:49-298 | a value of any type loads as it was stored, whatever follows, consuming exactly its own bytes |
| Serialization.LoadedFits | include/cpsCore/Utilities/DataPresentation/detail/BasicSerializationImpl.hpp:49-298 | whatever loads is of the type asked for and within the bounds |
| Serialization.RoundTripExact | include/cpsCore/Utilities/DataPresentation/detail/BasicSerializationImpl.hpp:49-298 | in every archive a value comes back intact if and only if its lengths and enumerators are within the bounds |
| Serialization.PrefixFree | include/cpsCore/Utilities/DataPresentation/detail/BasicSerializationImpl.hpp:49-298 | no encoding of a type is a proper prefix of another |
| Serialization.LengthPrefix | include/cpsCore/Utilities/DataPresentation/detail/BasicSerializationImpl.hpp:103-298 | two bytes of length before strings and vectors, low byte first, one before maps and for enumerators, and the flag before an optional |
| Serialization.PairInOrder | include/cpsCore/Utilities/DataPresentation/detail/BasicSerializationImpl.hpp:292-298 | the first part of a pair can be read by itself, and the second comes next |
| Serialization.ArrayInOrder | include/cpsCore/Utilities/DataPresentation/detail/BasicSerializationImpl.hpp:199-219 | so can the first element of an array |
| Serialization.MapInOrder | include/cpsCore/Utilities/DataPresentation/detail/BasicSerializationImpl.hpp:245-255 | and the first key of a map |
| Serialization.HeadersPopInReverse | include/cpsCore/Utilities/DataPresentation/DataPresentation.h:129-158 | headers come off in reverse order and leave the original packet |
| Serialization.EachRoundTrip | include/cpsCore/Utilities/DataPresentation/DataPresentation.h:57-118 | several values serialized together are extracted one by one |
| Archives.BinaryToArchive.Append | src/Utilities/DataPresentation/detail/Binary/BinaryToArchive.cpp:15-19 | the wrapped string grows by exactly these bytes |
| Archives.BinaryToArchive.Store | include/cpsCore/Utilities/DataPresentation/detail/BasicSerializationImpl.hpp:58-298 | the wrapped string grows by exactly the encoding of the value |
| Archives.BinaryToArchive.StoreElements | include/cpsCore/Utilities/DataPresentation/detail/BasicSerializationImpl.hpp:117-126 | the elements one after the other |
| Archives.BinaryToArchive.StoreAssociations | include/cpsCore/Utilities/DataPresentation/detail/BasicSerializationImpl.hpp:245-255 | the associations of a map, each key before its value |
| Archives.FreshTakesAll | include/cpsCore/Utilities/DataPresentation/detail/BasicSerializationImpl.hpp:103-115 | what is loaded into a fresh variable is what it then holds |
| Archives.VectorGrows | include/cpsCore/Utilities/DataPresentation/detail/BasicSerializationImpl.hpp:103-115 | loading the bytes of a vector into one that holds elements gives those followed by the loaded ones |
| Archives.AbsentKeeps | include/cpsCore/Utilities/DataPresentation/detail/BasicSerializationImpl.hpp:167-179 | loading an absent optional changes nothing |
| Archives.PairPlacesBoth | include/cpsCore/Utilities/DataPresentation/detail/BasicSerializationImpl.hpp:292-298 | the parts of a pair are each loaded into the part already there |
| Archives.PresentReplaces | include/cpsCore/Utilities/DataPresentation/detail/BasicSerializationImpl.hpp:49-298 | all else replaces what the variable held |
| Archives.BinaryFromArchive.Consume | src/Utilities/DataPresentation/detail/Binary/BinaryFromArchive.cpp:25-29 | the cursor moves on by that much |
| Archives.BinaryFromArchive.Read | src/Utilities/DataPresentation/detail/Binary/BinaryFromArchive.cpp:71-76 | the next bytes, or none if there are too few |
| Archives.BinaryFromArchive.Load | include/cpsCore/Utilities/DataPresentation/detail/BasicSerializationImpl.hpp:49-298 | the variable holds what loading it on top of its old value gives, and the cursor is where the specification leaves off |
| Archives.BinaryFromArchive.LoadVector | include/cpsCore/Utilities/DataPresentation/detail/BasicSerializationImpl.hpp:103-115 | loaded elements are appended to those already there |
| Archives.BinaryFromArchive.LoadOptional | include/cpsCore/Utilities/DataPresentation/detail/BasicSerializationImpl.hpp:167-179 | an absent content leaves the old one in place |
| Archives.BinaryFromArchive.LoadMap | include/cpsCore/Utilities/DataPresentation/detail/BasicSerializationImpl.hpp:228-243 | the map is cleared first and a repeated key keeps its first value |
| Archives.BinaryFromArchive.LoadString | include/cpsCore/Utilities/DataPresentation/detail/BasicSerializationImpl.hpp:264-273 | a length and that many bytes |
| Archives.Packet.Prepend | src/Utilities/Packet.cpp:35-39 | the bytes are put before the buffer |
| Archives.Packet.Consume | src/Utilities/Packet.cpp:59-67 | that many bytes leave the front of the buffer; too many leave it alone |
| Archives.AddHeader | include/cpsCore/Utilities/DataPresentation/DataPresentation.h:129-137 | the encoding of the header is put before the packet |
| Archives.ExtractHeader | include/cpsCore/Utilities/DataPresentation/DataPresentation.h:149-158 | the header is loaded from the packet's own buffer and exactly its bytes are taken off |
| Archives.SerializeInto | include/cpsCore/Utilities/DataPresentation/DataPresentation.h:67-74 | the values are appended to the packet |
| SharedMemory.MessageObject.constructor | src/Utilities/IPC/detail/SharedMemoryPublisherImpl.cpp:32-46 | an active, empty slot with room for the maximal packet |
| SharedMemory.MessageObject.Begin | src/Utilities/IPC/detail/SharedMemoryPublisherImpl.cpp:64-70 | a packet is refused if and only if it does not fit |
| SharedMemory.MessageObject.WriteStep | src/Utilities/IPC/detail/SharedMemoryPublisherImpl.cpp:75-105 | one step of `publish` or `teardown`, in the array itself |
| SharedMemory.MessageObject.ListenStep | src/Utilities/IPC/detail/SharedMemorySubscriptionImpl.cpp:69-87 | one step of the listener loop |
| SharedMemory.MessageObject.Publish | src/Utilities/IPC/detail/SharedMemoryPublisherImpl.cpp:59-82 | whatever the listeners do meanwhile, a packet that fits is published and is then in the slot in full, the bytes behind it untouched; undisturbed, the call does no more to the listeners than notify those that wait; any other packet is refused |
| SharedMemory.MessageObject.Interleave | src/Utilities/IPC/detail/SharedMemorySubscriptionImpl.cpp:57-87 | the object goes through any possible interleaving to exactly the state the step functions give |
| SharedMemoryTheorems.RunKeepsInv | src/Utilities/IPC/detail/SharedMemorySubscriptionImpl.cpp:69-85 | the invariant of slot and listeners holds along every run |
| SharedMemoryTheorems.NoTornPackets | src/Utilities/IPC/detail/SharedMemorySubscriptionImpl.cpp:82-84 | every packet delivered is in full the one published last when it was copied, and no listener goes back |
| ChannelTheorems.LossyOrderedChannel | src/Utilities/IPC/detail/SharedMemorySubscriptionImpl.cpp:69-85 | in every run in which the listener's spurious wakeups, if any, find news published or under way or the teardown, its deliveries are a strictly increasing subsequence of the publications |
| ChannelTheorems.SpuriousHarmlessExactly | src/Utilities/IPC/detail/SharedMemorySubscriptionImpl.cpp:72-84 | after a spurious wakeup the deliveries stay in order, in every continuation without another, if and only if it found such a thing |
| ChannelTheorems.OnItsWayDelivers | src/Utilities/IPC/detail/SharedMemorySubscriptionImpl.cpp:77-84 | a woken listener delivers what the slot holds or something later within as many steps of its own as the region has bytes and three more, as long as the slot is open, and only a publisher holding the mutex can keep it from them |
| ChannelTheorems.PublishedIsDelivered | src/Utilities/IPC/detail/SharedMemoryPublisherImpl.cpp:75-82 | so every packet published, or a later one, is delivered by every listener waiting for it, in every continuation in which it makes that many steps and the slot stays open |
| ChannelTheorems.PublishedCanBeDelivered | src/Utilities/IPC/detail/SharedMemoryPublisherImpl.cpp:75-82 | and some continuation delivers that packet itself |
| ChannelTheorems.CancelEndsListener | src/Utilities/IPC/detail/SharedMemorySubscriptionImpl.cpp:69-87 | a listener that is cancelled ends within as many steps of its own as the region has bytes and four more, unless it still waits where it waited |
| ChannelTheorems.CanceledListenerEnds | src/Utilities/IPC/detail/SharedMemorySubscriptionImpl.cpp:70-70 | once cancelled and not waiting it never waits again, and it ends with the very next step if it is about to test its loop's condition |
| ChannelTheorems.NeverEndsEarly | src/Utilities/IPC/detail/SharedMemorySubscriptionImpl.cpp:69-87 | a listener ends only if it is cancelled or the slot closed |
| ChannelTheorems.WaitsAgain | src/Utilities/IPC/detail/SharedMemorySubscriptionImpl.cpp:70-76 | after a delivery, a timeout or its start a listener that is not cancelled is back in its wait with the next one or two steps of its own |
| SharedMemoryTheorems.AcceptedArePublished | src/Utilities/IPC/detail/SharedMemoryPublisherImpl.cpp:59-82 | exactly the packets accepted are published, in order, at most the last still under way |
| SharedMemoryTheorems.StaysInTheRegion | src/Utilities/IPC/detail/SharedMemorySubscriptionImpl.cpp:82-83 | neither side reaches beyond the region or its buffer |
| SharedMemoryTheorems.HeardEnds | src/Utilities/IPC/detail/SharedMemorySubscriptionImpl.cpp:77-81 | a listener the last notification has reached ends with its next two steps and no further packet |
| SharedMemoryTheorems.MissedNeverEnds | src/Utilities/IPC/detail/SharedMemorySubscriptionImpl.cpp:70-76 | one that has missed it keeps running until it is cancelled |
| SharedMemoryTheorems.HeardOrMissed | src/Utilities/IPC/detail/SharedMemorySubscriptionImpl.cpp:69-86 | those two are all the listeners there are after teardown |
| SharedMemoryTheorems.MissedExactly | src/Utilities/IPC/detail/SharedMemorySubscriptionImpl.cpp:70-81 | an uncancelled listener misses the teardown if and only if, as the last notification was sent, it was between waits by a timeout, or had just started or not started yet |
| SharedMemoryTheorems.TimeoutMissesTeardown | src/Utilities/IPC/detail/SharedMemorySubscriptionImpl.cpp:72-76 | a run from the initial state in which the only listener times out, misses the teardown and never ends |
| SharedMemoryTheorems.SpuriousWakeupDelivers | src/Utilities/IPC/detail/SharedMemorySubscriptionImpl.cpp:82-84 | a run from the initial state in which a spurious wakeup delivers an empty packet nobody published |

## Left out

- BarrierTheorems.BarrierSafety: assumes that no wait returns without a notification, as do StageSuccess, TotalSuccess, PublishedIsBegun, ErrorIsReported and FailStop; OrderExact and SpuriousWakeupBreaksBarrier show what a spurious wakeup does to the order of stages. NoLostWakeup, EveryRunEnds, NobodyLeftBehind and TrueExactlyOnTimeOut need no such assumption.
- StageBarrier.Synchronizer.CollectOne: the timed wait may time out at any moment before the last post, because the model has no clock for it.
- The barrier covers one `runAllStages` on one synchronizer; creating, reusing and removing its shared memory is not part of this model.
- SimulationTheorems.SimulationInOrder: assumes delays and periods that are not negative, as do SimulationComplete and what RequestTheorems says of entries that are called; ErasesWhatItCalled shows what a negative one does.
- The simulator's real-time factor, progress event, `clearSchedule`, `waitFor`, `waitUntil`, `releaseWait` and `stopOnWait`: wall-clock behaviour and test hooks.
- DispatchTheorems.PassInOrder: assumes that no period is negative; EraseHitsTheHandledEntry shows what a negative one does.
- SchedulerTheorems.NoDrift: periods are fixed; `Event::changePeriod` is modelled in the simulator only.
- The threaded scheduler's `stop`, joins, thread priorities, signal handler and the list `nonPeriodicEvents_` kept for joining: thread lifetime, not scheduling.
- The threaded scheduler's waits are steps that may be taken at any moment with any clock reading, and a key may be computed long before it is inserted, so the theorems do not depend on how well the clock is kept.
- Hamming74.Decode: takes the nearest codeword also when a word has more than one flipped bit, where no code of this distance can tell.
- The CRC-16 polynomial is an uninterpreted function of the bytes; the header is its two bytes in memory order.
- DelimiterTheorems.NoisyRoundTrip: noise hits the bodies only; a disturbed delimiter is not recognised, so that its packet may run on into the next.
- SerialHandler.SerialHandler.SendPacket: appends to the line at once; overlapping asynchronous writes on one output buffer are not modelled, nor are the serial port, its options and `cancelHandler`.
- Serialization.RoundTrip: scalars are byte strings of fixed size and `uint16_t` prefixes lie low byte first; double compression, Eigen matrices, parameter sets and the file archives are not part of this model.
- Archives.BinaryFromArchive.Load: gives None where the archive runs out of input; the original throws or reads past the end there.
- A map is the list of its associations in the container's order of iteration.
- SharedMemory.MessageObject.Publish: once the given interference is used up, only listeners that hold the mutex go on while the publisher waits for it; that new ones may keep it waiting for ever is a matter of the mutex's fairness. Creating and removing the shared memory object and reconnecting are left out.
- `ThreadPoolScheduler`, the JSON property mapper, aggregation, plugins, logging, filters and angles: easy members, foreign types or compile-time machinery.
