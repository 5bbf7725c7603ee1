// Model of src/Utilities/Scheduler/MultiThreadingScheduler.cpp: a dispatcher works off the event queue
// under `eventsMutex_`, every periodic body has a thread of its own, and the two meet at the body's
// `executionMutex`, `intervalCondition` and atomic flags. Every access to one of these, and the start
// and the end of every call of a body, is one step; handles may cancel a body at any moment.

module SchedulerSteps {
  import opened Options
  import opened EventQueue

  datatype ThreadPc =
    | Spawned     // created, not yet holding the execution mutex
    | Looping     // about to read isCanceled
    | Ready       // has read that it is not cancelled
    | Running     // inside the body
    | Waiting     // inside the condition's wait
    | Notified    // woken, not yet holding the execution mutex again
    | Exiting     // has left the loop
    | Leaving     // has cleared isStarted
    | Ended

  predicate HoldsMutex(t: ThreadPc) {
    t.Looping? || t.Ready? || t.Running? || t.Exiting? || t.Leaving?
  }

  /** An EventBody. `threads` lists every thread ever started for it, `due` is the key it has in the queue
      while the dispatcher is not at it. The counters record what has happened to its due instants and how
      often its body was called. */
  datatype Job = Job(
    period: Option<int>,
    canceled: bool,
    started: bool,
    done: bool,
    threads: seq<ThreadPc>,
    first: int,
    due: int,
    handled: nat,            // due instants taken from the queue
    notifies: nat,           // ... that notified the thread
    unheard: nat,            // ... although it was not waiting
    missed: nat,             // ... that found the body still running
    dropped: nat,            // ... that found it cancelled before it had a thread
    spurious: nat,           // wakeups without a notification
    starts: nat,             // calls of the body
    startsAfterCancel: nat,
    freeAfterCancel: nat)    // due instants after cancellation that found the mutex free

  function NewJob(period: Option<int>, first: int): Job {
    Job(period, false, false, false, [], first, first, 0, 0, 0, 0, 0, 0, 0, 0, 0)
  }

  /** How far apart the due instants are. */
  function Gap(j: Job): int {
    if j.period.Some? then j.period.value else 0
  }

  /** How far a due instant moves the body on in the queue: with a negative period it stays where it is,
      because the dispatch loop then erases the entry it has just put in. */
  function Stride(j: Job): nat {
    if Gap(j) > 0 then Gap(j) else 0
  }

  predicate MutexFree(threads: seq<ThreadPc>) {
    forall t :: 0 <= t < |threads| ==> !HoldsMutex(threads[t])
  }

  /** notify_one. */
  function NotifyOne(threads: seq<ThreadPc>): (r: seq<ThreadPc>)
    ensures |r| == |threads|
  {
    if threads == [] then []
    else if threads[0] == Waiting then [Notified] + threads[1..]
    else [threads[0]] + NotifyOne(threads[1..])
  }

  function One(b: bool): nat {
    if b then 1 else 0
  }

  // ----- the dispatcher's way with one entry

  /** Where the dispatcher is with the entry it has taken from the head of the queue. */
  datatype Phase =
    | TryLock        // isStarted was set
    | CancelCheck    // the thread has been notified
    | SpawnCheck     // isStarted was not set
    | SpawnThread
    | Reschedule
    | OneShotCheck   // the body has no period
    | OneShotSpawn
    | Erase

  function Picked(j: Job): Job {
    j.(handled := j.handled + 1, due := j.due + Stride(j))
  }

  function FirstPhase(j: Job): Phase {
    if j.period.None? then OneShotCheck else if j.started then TryLock else SpawnCheck
  }

  /** What one phase does: to the body, where the dispatcher goes next (None: back to the loop head),
      and whether the body is put back into the queue and the head of the queue erased. */
  datatype Outcome = Outcome(job: Job, next: Option<Phase>, again: bool, erase: bool)

  function Handle(j: Job, phase: Phase): Outcome {
    match phase
    case TryLock =>
      if MutexFree(j.threads) then
        Outcome(j.(threads := NotifyOne(j.threads), notifies := j.notifies + 1,
                   unheard := j.unheard + One(Waiting !in j.threads),
                   freeAfterCancel := j.freeAfterCancel + One(j.canceled)),
                Some(CancelCheck), false, false)
      else
        Outcome(j.(missed := j.missed + 1), None, true, true)
    case CancelCheck =>
      if j.canceled then Outcome(j, None, false, true) else Outcome(j, Some(Reschedule), false, false)
    case SpawnCheck =>
      if j.canceled then Outcome(Dropped(j), Some(Reschedule), false, false)
      else Outcome(j, Some(SpawnThread), false, false)
    case SpawnThread =>
      Outcome(j.(started := true, threads := j.threads + [Spawned]), Some(Reschedule), false, false)
    case Reschedule => Outcome(j, Some(Erase), !j.canceled, false)
    case OneShotCheck =>
      if j.canceled then Outcome(Dropped(j), Some(Erase), false, false)
      else Outcome(j, Some(OneShotSpawn), false, false)
    case OneShotSpawn => Outcome(j.(threads := j.threads + [Spawned]), Some(Erase), false, false)
    case Erase => Outcome(j, None, false, true)
  }

  function Dropped(j: Job): Job {
    j.(dropped := j.dropped + 1, freeAfterCancel := j.freeAfterCancel + 1)
  }

  // ----- the threads

  predicate CanMove(j: Job, t: nat) {
    && t < |j.threads|
    && match j.threads[t]
       case Spawned => j.period.None? || MutexFree(j.threads)
       case Notified => MutexFree(j.threads)
       case Waiting => false
       case Ended => false
       case _ => true
  }

  /** The next step of thread t: of `periodicTask`, or of the lambda of a one-shot body. */
  function MoveThread(j: Job, t: nat): Job
    requires CanMove(j, t)
  {
    match j.threads[t]
    case Spawned => if j.period.None? then Called(j, t) else j.(threads := j.threads[t := Looping])
    case Notified => j.(threads := j.threads[t := Looping])
    case Looping => j.(threads := j.threads[t := if j.canceled then Exiting else Ready])
    case Ready => Called(j, t)
    case Running =>
      if j.period.None? then j.(threads := j.threads[t := Ended], done := true)
      else j.(threads := j.threads[t := Waiting])
    case Exiting => j.(threads := j.threads[t := Leaving], started := false)
    case Leaving => j.(threads := j.threads[t := Ended])
  }

  function Called(j: Job, t: nat): Job
    requires t < |j.threads|
  {
    j.(threads := j.threads[t := Running], starts := j.starts + 1,
       startsAfterCancel := j.startsAfterCancel + One(j.canceled))
  }

  function Woken(j: Job, t: nat): Job
    requires t < |j.threads|
  {
    j.(threads := j.threads[t := Notified], spurious := j.spurious + 1)
  }

  // ----- the whole scheduler

  datatype DispatchPc =
    | NotRunning
    | Idle                                   // waiting, `eventsMutex_` released
    | Head                                   // about to test the dispatch loop's condition
    | Handling(it: Entry, phase: Phase)

  /** `pass` is what the dispatch loop has erased since it last woke up, with `now` its clock reading. */
  datatype State = State(
    startingTime: int, events: seq<Entry>, jobs: seq<Job>, inserted: nat,
    pc: DispatchPc, now: int, pass: seq<Entry>)

  datatype Step =
    | Schedule(key: int, period: Option<int>)
    | Start(clock: int)
    | WakeUp(clock: int)
    | Dispatch
    | Thread(body: nat, thread: nat)
    | Spurious(body: nat, thread: nat)
    | Cancel(body: nat)

  const INITIAL := State(0, [], [], 0, NotRunning, 0, [])

  predicate Dispatching(pc: DispatchPc) {
    pc.Head? || pc.Handling?
  }

  predicate HeadDue(s: State) {
    s.events != [] && s.startingTime + s.events[0].time <= s.now
  }

  predicate Enabled(s: State, step: Step) {
    match step
    case Schedule(_, _) => !Dispatching(s.pc)
    case Start(_) => s.pc.NotRunning?
    case WakeUp(_) => s.pc.Idle?
    case Dispatch =>
      && (s.pc.Head? && HeadDue(s) ==> s.events[0].body < |s.jobs|)
      && (s.pc.Handling? ==> s.pc.it.body < |s.jobs| && s.events != [])
      && Dispatching(s.pc)
    case Thread(b, t) => b < |s.jobs| && CanMove(s.jobs[b], t)
    case Spurious(b, t) => b < |s.jobs| && t < |s.jobs[b].threads| && s.jobs[b].threads[t].Waiting?
    case Cancel(b) => b < |s.jobs|
  }

  function Apply(s: State, step: Step): State
    requires Enabled(s, step)
  {
    match step
    case Schedule(key, period) =>
      s.(events := Insert(s.events, Entry(key, s.inserted, |s.jobs|)),
         inserted := s.inserted + 1, jobs := s.jobs + [NewJob(period, key)])
    case Start(clock) => s.(startingTime := clock, pc := Idle)
    case WakeUp(clock) => s.(now := clock, pc := Head, pass := [])
    case Dispatch => if s.pc.Head? then PickHead(s) else HandleHead(s)
    case Thread(b, t) => s.(jobs := s.jobs[b := MoveThread(s.jobs[b], t)])
    case Spurious(b, t) => s.(jobs := s.jobs[b := Woken(s.jobs[b], t)])
    case Cancel(b) => s.(jobs := s.jobs[b := s.jobs[b].(canceled := true)])
  }

  function PickHead(s: State): State
    requires Enabled(s, Dispatch) && s.pc.Head?
  {
    if HeadDue(s) then
      var it := s.events[0];
      s.(pc := Handling(it, FirstPhase(s.jobs[it.body])),
         jobs := s.jobs[it.body := Picked(s.jobs[it.body])])
    else
      s.(pc := Idle)
  }

  /** A missed deadline reads the key at the head of the queue again, the regular path reads the key it
      has taken. */
  function HandleHead(s: State): State
    requires Enabled(s, Dispatch) && s.pc.Handling?
  {
    var base := if s.pc.phase.TryLock? then s.events[0].time else s.pc.it.time;
    Conclude(s, Handle(s.jobs[s.pc.it.body], s.pc.phase), base)
  }

  function Conclude(s: State, o: Outcome, base: int): State
    requires Enabled(s, Dispatch) && s.pc.Handling?
  {
    var it := s.pc.it;
    var queue := if o.again then Insert(s.events, Entry(base + Gap(o.job), s.inserted, it.body)) else s.events;
    s.(jobs := s.jobs[it.body := o.job],
       events := if o.erase then queue[1..] else queue,
       inserted := s.inserted + One(o.again),
       pass := if o.erase then s.pass + [queue[0]] else s.pass,
       pc := if o.next.Some? then Handling(it, o.next.value) else Head)
  }

  /** Every step of the list is enabled when its turn comes. */
  predicate Possible(s: State, steps: seq<Step>)
    decreases steps
  {
    steps == [] || (Enabled(s, steps[0]) && Possible(Apply(s, steps[0]), steps[1..]))
  }

  function After(s: State, steps: seq<Step>): State
    requires Possible(s, steps)
    decreases steps
  {
    if steps == [] then s else After(Apply(s, steps[0]), steps[1..])
  }

  lemma {:induction false} AfterMore(s: State, steps: seq<Step>, more: seq<Step>)
    requires Possible(s, steps) && Possible(After(s, steps), more)
    ensures Possible(s, steps + more) && After(s, steps + more) == After(After(s, steps), more)
    decreases steps
  {
    if steps == [] {
      assert steps + more == more;
    } else {
      var all := steps + more;
      assert all[0] == steps[0] && all[1..] == steps[1..] + more;
      var u := Apply(s, steps[0]);
      AfterMore(u, steps[1..], more);
      assert Possible(s, all) && After(s, all) == After(u, all[1..]);
    }
  }

  lemma AfterOne(s: State, steps: seq<Step>, step: Step)
    requires Possible(s, steps) && Enabled(After(s, steps), step)
    ensures Possible(s, steps + [step]) && After(s, steps + [step]) == Apply(After(s, steps), step)
  {
    assert [step][1..] == [];
    AfterMore(s, steps, [step]);
  }
}
