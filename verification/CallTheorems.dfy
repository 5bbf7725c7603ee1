// Which due instants of the threaded scheduler lead to calls, how many calls a cancellation leaves, and
// that no body is called before its time.

module CallTheorems {
  import opened Options
  import opened EventQueue
  import opened SchedulerSteps
  import opened SchedulerTheorems
  import opened DispatchTheorems

  // ----- from a due instant to the call

  /** How many steps of its own the thread is from calling the body. */
  function ToCall(j: Job): nat {
    if j.threads == [] then 0
    else match j.threads[0]
      case Spawned => if j.period.None? then 1 else 3
      case Notified => 3
      case Looping => 2
      case Ready => 1
      case _ => 0
  }

  /** How many steps the thread of body b makes. */
  function Moves(steps: seq<Step>, b: nat): nat {
    if steps == [] then 0 else (if steps[0] == Thread(b, 0) then 1 else 0) + Moves(steps[1..], b)
  }

  predicate NotCanceled(steps: seq<Step>, b: nat) {
    forall k :: 0 <= k < |steps| ==> steps[k] != Cancel(b)
  }

  lemma JobParts(s: State, b: nat)
    requires Inv(s) && b < |s.jobs|
    ensures var j, role := s.jobs[b], Role(s.pc, b);
      ThreadsOk(j) && CountsOk(j, role) && RoleOk(j, role)
  {
    assert JobOk(s.jobs[b], TimesOf(s.events, b), Role(s.pc, b));
  }

  lemma OnlyThread(s: State, b: nat, t: nat)
    requires Inv(s) && b < |s.jobs| && t < |s.jobs[b].threads|
    ensures t == 0 && s.jobs[b].threads == [s.jobs[b].threads[0]]
  {
    assert JobOk(s.jobs[b], TimesOf(s.events, b), Role(s.pc, b));
  }

  /** What a step does to body b, and where the dispatcher is with it afterwards. */
  function Effect(s: State, step: Step, b: nat): (Job, Option<Phase>)
    requires Enabled(s, step) && b < |s.jobs|
  {
    var j, role := s.jobs[b], Role(s.pc, b);
    match step
    case Thread(c, t) => (if c == b then MoveThread(j, t) else j, role)
    case Spurious(c, t) => (if c == b then Woken(j, t) else j, role)
    case Cancel(c) => (if c == b then j.(canceled := true) else j, role)
    case Dispatch =>
      if role.Some? then (Handle(j, role.value).job, Handle(j, role.value).next)
      else if s.pc.Head? && HeadDue(s) && s.events[0].body == b then (Picked(j), Some(FirstPhase(j)))
      else (j, None)
    case _ => (j, role)
  }

  lemma EffectIs(s: State, step: Step, b: nat)
    requires Enabled(s, step) && b < |s.jobs|
    ensures var u := Apply(s, step);
      b < |u.jobs| && u.jobs[b] == Effect(s, step, b).0 && Role(u.pc, b) == Effect(s, step, b).1
  {
  }

  lemma PendingMoves(j: Job)
    requires |j.threads| == 1 && ToCall(j) > 0 && !j.canceled
    ensures CanMove(j, 0)
    ensures var u := MoveThread(j, 0);
      if ToCall(j) == 1 then u.starts == j.starts + 1
      else u.starts == j.starts && !u.canceled && ToCall(u) == ToCall(j) - 1
  {
  }

  /** The dispatcher starts no second thread and does not touch one that is not waiting. */
  lemma HandleSparesThread(j: Job, phase: Phase)
    requires RoleOk(j, Some(phase)) && |j.threads| == 1 && !j.threads[0].Waiting?
    ensures var u := Handle(j, phase).job; u.threads == j.threads && u.starts == j.starts && u.period == j.period
    ensures Handle(j, phase).job.canceled == j.canceled
  {
    assert NotifyOne(j.threads) == j.threads;
  }

  lemma PendingEffect(s: State, step: Step, b: nat)
    requires Inv(s) && Enabled(s, step) && b < |s.jobs| && step != Cancel(b)
    requires ToCall(s.jobs[b]) > 0 && !s.jobs[b].canceled
    ensures var j, u := s.jobs[b], Effect(s, step, b).0;
      if step == Thread(b, 0) && ToCall(j) == 1 then u.starts == j.starts + 1
      else u.starts == j.starts && !u.canceled && ToCall(u) == ToCall(j) - Moves([step], b)
  {
    OnlyThread(s, b, 0);
    match step
    case Thread(c, t) =>
      if c == b {
        OnlyThread(s, b, t);
        PendingMoves(s.jobs[b]);
      }
    case Dispatch =>
      if Role(s.pc, b).Some? {
        JobParts(s, b);
        HandleSparesThread(s.jobs[b], s.pc.phase);
      }
    case _ =>
  }

  /** A thread on its way to a call that is not cancelled gets there in exactly that many steps of its own,
      whatever else happens, and until then it can always make the next. */
  lemma {:induction false} PendingIsCalled(s: State, steps: seq<Step>, b: nat)
    requires Inv(s) && Possible(s, steps) && b < |s.jobs| && NotCanceled(steps, b)
    requires ToCall(s.jobs[b]) > 0 && !s.jobs[b].canceled
    ensures b < |After(s, steps).jobs|
    ensures var j, u := s.jobs[b], After(s, steps).jobs[b];
      if Moves(steps, b) >= ToCall(j) then u.starts > j.starts
      else u.starts == j.starts && ToCall(u) == ToCall(j) - Moves(steps, b)
           && Enabled(After(s, steps), Thread(b, 0))
    decreases steps
  {
    if steps == [] {
      OnlyThread(s, b, 0);
      PendingMoves(s.jobs[b]);
    } else {
      var u := Apply(s, steps[0]);
      assert steps[0] != Cancel(b);
      assert forall k :: 0 <= k < |steps[1..]| ==> steps[1..][k] == steps[k + 1];
      EffectIs(s, steps[0], b);
      PendingEffect(s, steps[0], b);
      StepKeepsInv(s, steps[0]);
      assert Moves(steps, b) == Moves([steps[0]], b) + Moves(steps[1..], b);
      if u.jobs[b].starts == s.jobs[b].starts {
        PendingIsCalled(u, steps[1..], b);
      } else {
        RunPersists(u, steps[1..], b);
      }
    }
  }

  /** The dispatcher is about to start the thread of the body, or to notify it while it waits. */
  predicate Serves(j: Job, phase: Phase) {
    phase.SpawnThread? || phase.OneShotSpawn? || (phase.TryLock? && j.threads == [Waiting])
  }

  lemma ServedJob(j: Job, phase: Phase)
    requires RoleOk(j, Some(phase)) && |j.threads| <= 1 && Serves(j, phase)
    ensures var u := Handle(j, phase).job;
      u.starts == j.starts && u.canceled == j.canceled && 1 <= ToCall(u) <= 3
  {
    if phase.TryLock? {
      assert MutexFree(j.threads) && NotifyOne(j.threads) == [SchedulerSteps.Notified];
    }
  }

  lemma ServedIsPending(s: State)
    requires Inv(s) && s.pc.Handling? && Enabled(s, Dispatch) && Serves(s.jobs[s.pc.it.body], s.pc.phase)
    ensures var j, u := s.jobs[s.pc.it.body], Apply(s, Dispatch).jobs[s.pc.it.body];
      u.starts == j.starts && u.canceled == j.canceled && 1 <= ToCall(u) <= 3
  {
    NextKey(s);
    ServedJob(s.jobs[s.pc.it.body], s.pc.phase);
  }

  /** Every due instant that starts or wakes the thread leads to a call: after that step of the dispatcher
      the thread is at most three steps of its own away from it, and whatever the others do short of
      cancelling the body, it can make them, and the third at the latest is the call. */
  lemma ServedIsCalled(s: State, steps: seq<Step>)
    requires Inv(s) && s.pc.Handling? && Enabled(s, Dispatch)
    requires var j := s.jobs[s.pc.it.body]; Serves(j, s.pc.phase) && !j.canceled
    requires Possible(Apply(s, Dispatch), steps) && NotCanceled(steps, s.pc.it.body)
    ensures var b := s.pc.it.body; var u := After(Apply(s, Dispatch), steps);
      && b < |u.jobs|
      && (Moves(steps, b) >= 3 ==> u.jobs[b].starts > s.jobs[b].starts)
      && (u.jobs[b].starts == s.jobs[b].starts ==> Enabled(u, Thread(b, 0)))
  {
    ServedIsPending(s);
    StepKeepsInv(s, Dispatch);
    PendingIsCalled(Apply(s, Dispatch), steps, s.pc.it.body);
  }

  /** A thread's next n steps. */
  function InARow(b: nat, n: nat): seq<Step> {
    if n == 0 then [] else [Thread(b, 0)] + InARow(b, n - 1)
  }

  /** In particular it can make them in a row, and then the body has been called exactly once more. */
  lemma {:induction false} PendingCanCall(s: State, b: nat)
    requires Inv(s) && b < |s.jobs| && ToCall(s.jobs[b]) > 0 && !s.jobs[b].canceled
    ensures var steps := InARow(b, ToCall(s.jobs[b]));
      && Possible(s, steps) && b < |After(s, steps).jobs|
      && After(s, steps).jobs[b].starts == s.jobs[b].starts + 1
    decreases ToCall(s.jobs[b])
  {
    var steps := InARow(b, ToCall(s.jobs[b]));
    OnlyThread(s, b, 0);
    PendingMoves(s.jobs[b]);
    assert steps[0] == Thread(b, 0) && steps[1..] == InARow(b, ToCall(s.jobs[b]) - 1);
    if ToCall(s.jobs[b]) == 1 {
      assert steps[1..] == [];
    } else {
      StepKeepsInv(s, Thread(b, 0));
      PendingCanCall(Apply(s, Thread(b, 0)), b);
    }
  }

  /** So a due instant that is served can always be followed by exactly one call: of a periodic body with
      three steps of its thread, of a one-shot with one. */
  lemma ServedCanCall(s: State)
    requires Inv(s) && s.pc.Handling? && Enabled(s, Dispatch)
    requires var j := s.jobs[s.pc.it.body]; Serves(j, s.pc.phase) && !j.canceled
    ensures var b := s.pc.it.body; var d := Apply(s, Dispatch);
      var steps := InARow(b, if s.jobs[b].period.Some? then 3 else 1);
      && Possible(d, steps) && b < |After(d, steps).jobs|
      && After(d, steps).jobs[b].starts == s.jobs[b].starts + 1
  {
    var b := s.pc.it.body;
    var d := Apply(s, Dispatch);
    ServedIsPending(s);
    StepKeepsInv(s, Dispatch);
    PendingCanCall(d, b);
    assert ToCall(d.jobs[b]) == if s.jobs[b].period.Some? then 3 else 1 by {
      NextKey(s);
    }
  }

  /** A wait that returns without a notification leads to a call just the same, because nothing is tested after
      it but the cancel flag. */
  lemma SpuriousCanCall(s: State, b: nat)
    requires Inv(s) && Enabled(s, Spurious(b, 0)) && !s.jobs[b].canceled
    ensures var d := Apply(s, Spurious(b, 0));
      && Possible(d, InARow(b, 3)) && b < |After(d, InARow(b, 3)).jobs|
      && After(d, InARow(b, 3)).jobs[b].starts == s.jobs[b].starts + 1
  {
    OnlyThread(s, b, 0);
    StepKeepsInv(s, Spurious(b, 0));
    PendingCanCall(Apply(s, Spurious(b, 0)), b);
  }

  /** What becomes of a due instant of a body that has a thread: where that waits, it is woken; where it is
      between the mutex and the wait, the deadline is missed and the body stays in the queue; and where
      it has not come to hold the mutex yet, or has ended, nobody hears the notification. */
  lemma DueInstantOutcome(s: State)
    requires Inv(s) && s.pc.Handling? && s.pc.phase.TryLock? && Enabled(s, Dispatch)
    ensures var j, u := s.jobs[s.pc.it.body], Apply(s, Dispatch).jobs[s.pc.it.body];
      && |j.threads| == 1 == |u.threads|
      && match j.threads[0] {
           case Waiting =>
             u.threads == [Notified] && (u.notifies, u.unheard, u.missed) == (j.notifies + 1, j.unheard, j.missed)
           case Spawned | Notified | Ended =>
             u.threads == j.threads
             && (u.notifies, u.unheard, u.missed) == (j.notifies + 1, j.unheard + 1, j.missed)
           case Looping | Ready | Running | Exiting | Leaving =>
             u.threads == j.threads
             && (u.notifies, u.unheard, u.missed) == (j.notifies, j.unheard, j.missed + 1)
         }
  {
    NextKey(s);
    var j := s.jobs[s.pc.it.body];
    assert j.threads == [j.threads[0]];
    if !HoldsMutex(j.threads[0]) {
      assert MutexFree(j.threads);
    }
  }

  // ----- a run with a due instant that nobody hears

  /** The dispatcher is at its only entry, due, of a periodic body without a thread. */
  predicate Fresh(s: State, phase: Phase) {
    && s.pc.Handling? && s.pc.phase == phase && s.events == [s.pc.it] && s.pc.it.body < |s.jobs|
    && var j := s.jobs[s.pc.it.body];
    j.period.Some? && j.period.value >= 0 && !j.canceled && j.threads == [] && j.unheard == 0
  }

  /** It starts the thread and puts the body back. */
  lemma FreshIsPutBack(s: State)
    requires Fresh(s, SpawnThread)
    ensures Possible(s, Alone(3))
    ensures var u := After(s, Alone(3)); var j := s.jobs[s.pc.it.body];
      && u.pc == Head && u.startingTime == s.startingTime && u.now == s.now && |u.jobs| == |s.jobs|
      && u.events == [Entry(s.pc.it.time + j.period.value, s.inserted, s.pc.it.body)]
      && u.jobs[s.pc.it.body] == j.(started := true, threads := [Spawned])
  {
    var it, j := s.pc.it, s.jobs[s.pc.it.body];
    var s1 := Apply(s, Dispatch);
    assert [] + [Spawned] == [Spawned];
    var s2 := Apply(s1, Dispatch);
    var again := Entry(it.time + j.period.value, s.inserted, it.body);
    InsertHead(s1.events, again);
    assert s2.events == [it] + [again];
    var s3 := Apply(s2, Dispatch);
    OneMoreAlone(s2, 0);
    OneMoreAlone(s1, 1);
    OneMoreAlone(s, 2);
  }

  /** If its next due instant has come too, the notification then finds a thread that is not waiting yet. */
  lemma NotHeard(s: State)
    requires s.pc == Head && |s.events| == 1 && HeadDue(s) && s.events[0].body < |s.jobs|
    requires var j := s.jobs[s.events[0].body];
      j.period.Some? && j.started && j.threads == [Spawned] && j.unheard == 0
    ensures Possible(s, Alone(2)) && s.events[0].body < |After(s, Alone(2)).jobs|
    ensures var j := After(s, Alone(2)).jobs[s.events[0].body];
      j.unheard == 1 && j.threads == [Spawned]
  {
    var s1 := Apply(s, Dispatch);
    assert NotifyOne([Spawned]) == [Spawned];
    OneMoreAlone(Apply(s1, Dispatch), 0);
    OneMoreAlone(s1, 0);
    OneMoreAlone(s, 1);
  }

  lemma FirstWakeUp(period: nat)
    ensures var steps := [Schedule(0, Some(period)), Start(0), WakeUp(period)];
      && Possible(INITIAL, steps)
      && var s := After(INITIAL, steps);
      && s.pc == Head && s.startingTime == 0 && s.now == period && s.events == [Entry(0, 0, 0)]
      && s.jobs == [NewJob(Some(period), 0)]
  {
    var steps := [Schedule(0, Some(period)), Start(0), WakeUp(period)];
    var s1 := Apply(INITIAL, Schedule(0, Some(period)));
    var s2 := Apply(s1, Start(0));
    var s3 := Apply(s2, WakeUp(period));
    assert steps[1..] == [Start(0), WakeUp(period)];
    assert steps[1..][1..] == [WakeUp(period)] && [WakeUp(period)][1..] == [];
    assert After(s2, [WakeUp(period)]) == s3;
    assert After(s1, [Start(0), WakeUp(period)]) == s3;
  }

  lemma FirstCheck(s: State)
    requires s.pc == Head && |s.events| == 1 && HeadDue(s) && s.events[0].body < |s.jobs|
    requires var j := s.jobs[s.events[0].body];
      j.period.Some? && j.period.value >= 0 && !j.canceled && j.threads == [] && !j.started && j.unheard == 0
    ensures Possible(s, Alone(2)) && Fresh(After(s, Alone(2)), SpawnThread)
    ensures var u := After(s, Alone(2));
      && u.pc.it == s.events[0] && u.startingTime == s.startingTime && u.now == s.now
      && u.jobs[u.pc.it.body].period == s.jobs[s.events[0].body].period
  {
    var s1 := Apply(s, Dispatch);
    OneMoreAlone(Apply(s1, Dispatch), 0);
    OneMoreAlone(s1, 0);
    OneMoreAlone(s, 1);
  }

  /** A scheduler whose first wakeup comes when the second due instant of its only body has come too: the
      second finds the thread it has just started on its way to the mutex, and is lost. DueInstantOutcome
      says exactly when this happens. */
  lemma UnheardDueInstant(period: nat) returns (steps: seq<Step>)
    ensures Possible(INITIAL, steps)
    ensures var s := After(INITIAL, steps); |s.jobs| > 0 && s.jobs[0].unheard == 1 && s.jobs[0].threads == [Spawned]
  {
    steps := [Schedule(0, Some(period)), Start(0), WakeUp(period)];
    FirstWakeUp(period);
    var s := After(INITIAL, steps);
    FirstCheck(s);
    AfterMore(INITIAL, steps, Alone(2));
    steps := steps + Alone(2);
    s := After(INITIAL, steps);
    FreshIsPutBack(s);
    AfterMore(INITIAL, steps, Alone(3));
    steps := steps + Alone(3);
    s := After(INITIAL, steps);
    NotHeard(s);
    AfterMore(INITIAL, steps, Alone(2));
    steps := steps + Alone(2);
  }

  // ----- after a cancellation

  /** How many calls of a cancelled body are still to come at most, and how many threads. */
  function CallsLeft(s: State, b: nat): nat
    requires b < |s.jobs|
  {
    Committed(s.jobs[b], Role(s.pc, b))
  }

  function Spawning(role: Option<Phase>): nat {
    One(role == Some(SpawnThread) || role == Some(OneShotSpawn))
  }

  function ThreadsLeft(s: State, b: nat): nat {
    Spawning(Role(s.pc, b))
  }

  lemma HandledCanceled(j: Job, phase: Phase)
    requires RoleOk(j, Some(phase)) && ThreadsOk(j) && CountsOk(j, Some(phase)) && j.canceled
    ensures var o := Handle(j, phase);
      && o.job.starts == j.starts && Committed(o.job, o.next) <= Committed(j, Some(phase))
      && |o.job.threads| + Spawning(o.next) <= |j.threads| + Spawning(Some(phase))
  {
    if phase.SpawnThread? {
      assert (j.threads + [Spawned])[0] == Spawned;
    } else if phase.TryLock? {
      assert j.threads == [j.threads[0]];
      assert NotifyOne(j.threads) == [if j.threads[0].Waiting? then SchedulerSteps.Notified else j.threads[0]];
    }
  }

  lemma MovedCanceled(j: Job, role: Option<Phase>)
    requires ThreadsOk(j) && CountsOk(j, role) && CanMove(j, 0) && j.canceled
    ensures var u := MoveThread(j, 0);
      u.starts + Committed(u, role) <= j.starts + Committed(j, role) && |u.threads| == |j.threads|
  {
    assert j.threads == [j.threads[0]];
    var u := MoveThread(j, 0);
    assert u.threads == [u.threads[0]];
  }

  lemma CanceledMove(s: State, b: nat, t: nat)
    requires Inv(s) && b < |s.jobs| && s.jobs[b].canceled && CanMove(s.jobs[b], t)
    ensures var role, u := Role(s.pc, b), MoveThread(s.jobs[b], t);
      u.starts + Committed(u, role) <= s.jobs[b].starts + Committed(s.jobs[b], role)
      && |u.threads| == |s.jobs[b].threads| && u.canceled
  {
    JobParts(s, b);
    OnlyThread(s, b, t);
    MovedCanceled(s.jobs[b], Role(s.pc, b));
  }

  lemma CanceledEffect(s: State, step: Step, b: nat)
    requires Inv(s) && Enabled(s, step) && b < |s.jobs| && s.jobs[b].canceled
    ensures var (u, role) := Effect(s, step, b);
      && u.canceled && u.starts + Committed(u, role) <= s.jobs[b].starts + CallsLeft(s, b)
      && |u.threads| + Spawning(role) <= |s.jobs[b].threads| + ThreadsLeft(s, b)
  {
    match step
    case Thread(c, t) =>
      if c == b {
        CanceledMove(s, b, t);
      }
    case Dispatch =>
      if Role(s.pc, b).Some? {
        JobParts(s, b);
        HandledCanceled(s.jobs[b], s.pc.phase);
      }
    case _ =>
  }

  lemma {:induction false} CanceledRun(s: State, steps: seq<Step>, b: nat)
    requires Inv(s) && Possible(s, steps) && b < |s.jobs| && s.jobs[b].canceled
    ensures var u := After(s, steps);
      && b < |u.jobs|
      && u.jobs[b].starts + CallsLeft(u, b) <= s.jobs[b].starts + CallsLeft(s, b)
      && |u.jobs[b].threads| + ThreadsLeft(u, b) <= |s.jobs[b].threads| + ThreadsLeft(s, b)
    decreases steps
  {
    if steps == [] {
    } else {
      EffectIs(s, steps[0], b);
      CanceledEffect(s, steps[0], b);
      StepKeepsInv(s, steps[0]);
      CanceledRun(Apply(s, steps[0]), steps[1..], b);
    }
  }

  /** A run in which all the calls that are left are made. */
  lemma MakesCallsLeft(s: State, b: nat) returns (steps: seq<Step>)
    requires Inv(s) && b < |s.jobs| && s.jobs[b].canceled
    ensures Possible(s, steps) && b < |After(s, steps).jobs|
    ensures After(s, steps).jobs[b].starts == s.jobs[b].starts + CallsLeft(s, b)
  {
    var j := s.jobs[b];
    assert JobOk(j, TimesOf(s.events, b), Role(s.pc, b));
    if CallsLeft(s, b) == 0 {
      steps := [];
    } else if j.threads != [] {
      CommittedCalls(s, b);
      steps := InARow(b, 1);
    } else {
      SpawnIsNext(s, b);
      StepKeepsInv(s, Dispatch);
      CommittedCalls(Apply(s, Dispatch), b);
      steps := [Dispatch] + InARow(b, 1);
      assert steps[1..] == InARow(b, 1);
    }
  }

  lemma CommittedCalls(s: State, b: nat)
    requires Inv(s) && b < |s.jobs| && CallsLeft(s, b) == 1 && s.jobs[b].threads != []
    ensures Possible(s, InARow(b, 1)) && b < |After(s, InARow(b, 1)).jobs|
    ensures After(s, InARow(b, 1)).jobs[b].starts == s.jobs[b].starts + 1
  {
    assert JobOk(s.jobs[b], TimesOf(s.events, b), Role(s.pc, b));
    assert InARow(b, 1)[1..] == InARow(b, 0);
  }

  lemma SpawnIsNext(s: State, b: nat)
    requires Inv(s) && b < |s.jobs| && CallsLeft(s, b) == 1 && s.jobs[b].threads == []
    ensures Enabled(s, Dispatch) && b < |Apply(s, Dispatch).jobs|
    ensures var u := Apply(s, Dispatch);
      u.jobs[b].starts == s.jobs[b].starts && u.jobs[b].threads != [] && CallsLeft(u, b) == 1
  {
    assert JobOk(s.jobs[b], TimesOf(s.events, b), Role(s.pc, b));
  }

  /** Exactly how many calls a cancellation leaves: one if the thread has already read that its body is not
      cancelled, or is that of a one-shot and only has to run, or the dispatcher is about to start it;
      none otherwise. No run after it makes more, and some run makes them. A thread is started only if
      the dispatcher was about to. */
  lemma CallsAfterCancelExactly(s: State, b: nat)
    requires Inv(s) && b < |s.jobs|
    ensures var c := Apply(s, Cancel(b));
      && (forall steps :: Possible(c, steps) ==>
            && b < |After(c, steps).jobs|
            && After(c, steps).jobs[b].starts <= s.jobs[b].starts + CallsLeft(s, b)
            && |After(c, steps).jobs[b].threads| <= |s.jobs[b].threads| + ThreadsLeft(s, b))
      && exists steps :: Possible(c, steps) && b < |After(c, steps).jobs|
            && After(c, steps).jobs[b].starts == s.jobs[b].starts + CallsLeft(s, b)
  {
    var c := Apply(s, Cancel(b));
    StepKeepsInv(s, Cancel(b));
    assert CallsLeft(c, b) == CallsLeft(s, b);
    forall steps | Possible(c, steps)
      ensures b < |After(c, steps).jobs|
      ensures After(c, steps).jobs[b].starts <= s.jobs[b].starts + CallsLeft(s, b)
      ensures |After(c, steps).jobs[b].threads| <= |s.jobs[b].threads| + ThreadsLeft(s, b)
    {
      CanceledRun(c, steps, b);
    }
    var steps := MakesCallsLeft(c, b);
  }

  /** A body cancelled before its first due instant is never called and never gets a thread. */
  lemma CanceledBeforeDue(s: State, b: nat, steps: seq<Step>)
    requires Inv(s) && b < |s.jobs| && s.jobs[b].handled == 0
    requires Possible(Apply(s, Cancel(b)), steps)
    ensures var u := After(Apply(s, Cancel(b)), steps);
      b < |u.jobs| && u.jobs[b].starts == 0 && u.jobs[b].threads == []
  {
    assert JobOk(s.jobs[b], TimesOf(s.events, b), Role(s.pc, b));
    StepKeepsInv(s, Cancel(b));
    CanceledRun(Apply(s, Cancel(b)), steps, b);
  }

  // ----- the end of a thread

  /** How many steps of its own the thread of a cancelled body is from its end, if it is not waiting and not
      yet committed to a call. */
  function ToEnd(t: ThreadPc): nat {
    match t
    case Spawned => 4
    case Notified => 4
    case Looping => 3
    case Exiting => 2
    case Leaving => 1
    case _ => 0
  }

  /** The thread of a cancelled periodic body, neither waiting nor committed to a call. */
  predicate Ending(j: Job) {
    && j.canceled && j.period.Some? && |j.threads| == 1
    && (ToEnd(j.threads[0]) > 0 || j.threads[0].Ended?)
  }

  lemma EndingMove(j: Job)
    requires Ending(j) && !j.threads[0].Ended?
    ensures CanMove(j, 0)
    ensures var u := MoveThread(j, 0);
      Ending(u) && u.starts == j.starts && ToEnd(u.threads[0]) + 1 == ToEnd(j.threads[0])
  {
    assert j.threads == [j.threads[0]];
  }

  lemma EndingEffect(s: State, step: Step, b: nat)
    requires Inv(s) && Enabled(s, step) && b < |s.jobs| && Ending(s.jobs[b])
    ensures var j, u := s.jobs[b], Effect(s, step, b).0;
      Ending(u) && u.starts == j.starts && ToEnd(u.threads[0]) + Moves([step], b) == ToEnd(j.threads[0])
  {
    match step
    case Thread(c, t) =>
      if c == b {
        EndingMove(s.jobs[b]);
      }
    case Dispatch =>
      if Role(s.pc, b).Some? {
        JobParts(s, b);
        HandleSparesThread(s.jobs[b], s.pc.phase);
      }
    case _ =>
  }

  /** Such a thread always has a next step, makes no call, and with the last of so many steps it ends. */
  lemma {:induction false} CanceledThreadEnds(s: State, steps: seq<Step>, b: nat)
    requires Inv(s) && Possible(s, steps) && b < |s.jobs| && Ending(s.jobs[b])
    ensures b < |After(s, steps).jobs|
    ensures var j, u := s.jobs[b], After(s, steps).jobs[b];
      && u.starts == j.starts && |u.threads| == 1
      && (u.threads[0].Ended? <==> Moves(steps, b) == ToEnd(j.threads[0]))
      && (!u.threads[0].Ended? ==> Enabled(After(s, steps), Thread(b, 0)))
    decreases steps
  {
    if steps == [] {
      if !s.jobs[b].threads[0].Ended? {
        EndingMove(s.jobs[b]);
      }
    } else {
      EffectIs(s, steps[0], b);
      EndingEffect(s, steps[0], b);
      StepKeepsInv(s, steps[0]);
      assert Moves(steps, b) == Moves([steps[0]], b) + Moves(steps[1..], b);
      CanceledThreadEnds(Apply(s, steps[0]), steps[1..], b);
    }
  }

  // ----- from the request on

  /** The state after a body has been scheduled, as the last of its bodies. */
  function Requested(steps: seq<Step>, key: int, period: Option<int>): State
    requires Possible(INITIAL, steps) && Enabled(After(INITIAL, steps), Schedule(key, period))
  {
    Apply(After(INITIAL, steps), Schedule(key, period))
  }

  /** Its keys, from the request on: the key asked for plus a whole number of the periods asked for, as many
      as it has had due instants, or one less while the last of them is being handled. With a negative
      period it stays at the key asked for, but for the entry about to be erased. */
  lemma KeysAsRequested(steps: seq<Step>, key: int, period: Option<int>, rest: seq<Step>, i: nat)
    requires Possible(INITIAL, steps) && Enabled(After(INITIAL, steps), Schedule(key, period))
    requires Possible(Requested(steps, key, period), rest)
    requires var u := After(Requested(steps, key, period), rest);
      i < |u.events| && u.events[i].body == |After(INITIAL, steps).jobs|
    ensures var u := After(Requested(steps, key, period), rest); var e := u.events[i];
      && e.body < |u.jobs| && u.jobs[e.body].period == period
      && var gap, n := (if period.Some? then period.value else 0), u.jobs[e.body].handled;
      && (gap >= 0 ==>
            e.time == key + gap * n || (Role(u.pc, e.body) != None && e.time == key + gap * (n - 1)))
      && (gap < 0 ==> e.time == key || (Role(u.pc, e.body) == Some(Erase) && e.time == key + gap))
  {
    var s := Requested(steps, key, period);
    var b := |After(INITIAL, steps).jobs|;
    Reachable(steps);
    StepKeepsInv(After(INITIAL, steps), Schedule(key, period));
    RunKeepsInv(s, rest);
    RunPersists(s, rest, b);
    var u := After(s, rest);
    EntryInTimes(u.events, i);
    KeysAreRegular(u.jobs[b], TimesOf(u.events, b), Role(u.pc, b));
  }

  // ----- never too early

  /** The clock reading with which the scheduler was started. */
  function StartingTime(steps: seq<Step>): int {
    if steps == [] then 0
    else
      var last := steps[|steps| - 1];
      if last.Start? then last.clock else StartingTime(steps[..|steps| - 1])
  }

  /** The latest of the clock readings with which the dispatcher has woken up. */
  function LatestWakeUp(steps: seq<Step>): Option<int> {
    if steps == [] then None
    else
      var last, before := steps[|steps| - 1], LatestWakeUp(steps[..|steps| - 1]);
      if last.WakeUp? && (before == None || before.value < last.clock) then Some(last.clock) else before
  }

  predicate NotLater(t: int, latest: Option<int>) {
    latest.Some? && t <= latest.value
  }

  /** Every due instant handled was due by some clock reading. */
  predicate OnTime(s: State, start: int, latest: Option<int>) {
    && s.startingTime == start
    && (Dispatching(s.pc) ==> NotLater(s.now, latest))
    && forall b :: 0 <= b < |s.jobs| && s.jobs[b].handled > 0 ==>
         !s.pc.NotRunning? && NotLater(start + s.jobs[b].due - Stride(s.jobs[b]), latest)
  }

  lemma StepIsOnTime(s: State, step: Step, start: int, latest: Option<int>)
    requires Inv(s) && Enabled(s, step) && OnTime(s, start, latest)
    ensures OnTime(Apply(s, step), if step.Start? then step.clock else start,
                   if step.WakeUp? && (latest == None || latest.value < step.clock) then Some(step.clock) else latest)
  {
    var u := Apply(s, step);
    var later := if step.WakeUp? && (latest == None || latest.value < step.clock) then Some(step.clock) else latest;
    forall b | 0 <= b < |u.jobs| && u.jobs[b].handled > 0
      ensures !u.pc.NotRunning? && !step.Start? && NotLater(start + u.jobs[b].due - Stride(u.jobs[b]), later)
    {
      if b < |s.jobs| {
        EffectIs(s, step, b);
        EffectOnTime(s, step, b);
      }
    }
  }

  /** A step leaves key and count of due instants alone, but for the pick of a due entry. */
  lemma EffectOnTime(s: State, step: Step, b: nat)
    requires Inv(s) && Enabled(s, step) && b < |s.jobs|
    ensures var j, u := s.jobs[b], Effect(s, step, b).0;
      && Stride(u) == Stride(j)
      && ((u.handled == j.handled && u.due == j.due)
          || (step.Dispatch? && Dispatching(s.pc) && s.startingTime + u.due - Stride(u) <= s.now))
  {
    assert JobOk(s.jobs[b], TimesOf(s.events, b), Role(s.pc, b));
    match step
    case Dispatch =>
      if s.pc.Head? && HeadDue(s) && s.events[0].body == b {
        assert TimesOf(s.events, b)[0] == s.events[0].time;
      }
    case _ =>
  }

  lemma {:induction false} RunIsOnTime(steps: seq<Step>)
    requires Possible(INITIAL, steps)
    ensures OnTime(After(INITIAL, steps), StartingTime(steps), LatestWakeUp(steps))
    decreases steps
  {
    if steps == [] {
    } else {
      var before, last := steps[..|steps| - 1], steps[|steps| - 1];
      LastStep(INITIAL, steps);
      RunIsOnTime(before);
      Reachable(before);
      StepIsOnTime(After(INITIAL, before), last, StartingTime(before), LatestWakeUp(before));
    }
  }

  lemma {:induction false} LastStep(s: State, steps: seq<Step>)
    requires Possible(s, steps) && steps != []
    ensures var before, last := steps[..|steps| - 1], steps[|steps| - 1];
      && Possible(s, before) && Enabled(After(s, before), last)
      && After(s, steps) == Apply(After(s, before), last)
    decreases steps
  {
    var before := steps[..|steps| - 1];
    if |steps| == 1 {
      assert before == [];
    } else {
      LastStep(Apply(s, steps[0]), steps[1..]);
      assert before[1..] == steps[1..][..|steps[1..]| - 1];
    }
  }

  lemma EarlierDue(start: int, key: int, gap: nat, n: nat, m: nat, latest: Option<int>)
    requires 1 <= n <= m && NotLater(start + (key + gap * m) - gap, latest)
    ensures NotLater(start + key + gap * (n - 1), latest)
  {
    assert gap * m - gap - gap * (n - 1) == gap * (m - n) >= 0;
  }

  /** No call comes before its time: leaving spurious wakeups aside, the n-th call of a body is not made
      before some clock reading of the dispatcher has reached the starting time plus the key asked for plus
      n - 1 periods. */
  lemma NeverCalledEarly(steps: seq<Step>, key: int, period: Option<int>, rest: seq<Step>)
    requires Possible(INITIAL, steps) && Enabled(After(INITIAL, steps), Schedule(key, period))
    requires Possible(Requested(steps, key, period), rest)
    ensures var run, u := steps + [Schedule(key, period)] + rest, After(Requested(steps, key, period), rest);
      Possible(INITIAL, run) && After(INITIAL, run) == u && |After(INITIAL, steps).jobs| < |u.jobs|
    ensures var run, u := steps + [Schedule(key, period)] + rest, After(Requested(steps, key, period), rest);
      var j := u.jobs[|After(INITIAL, steps).jobs|];
      var gap := if period.Some? && period.value > 0 then period.value else 0;
      j.starts > j.spurious ==>
        NotLater(StartingTime(run) + key + gap * (j.starts - j.spurious - 1), LatestWakeUp(run))
  {
    var run := steps + [Schedule(key, period)] + rest;
    var b := |After(INITIAL, steps).jobs|;
    AfterOne(INITIAL, steps, Schedule(key, period));
    AfterMore(INITIAL, steps + [Schedule(key, period)], rest);
    RunPersists(Requested(steps, key, period), rest, b);
    Reachable(run);
    RunIsOnTime(run);
    var u := After(INITIAL, run);
    var j := u.jobs[b];
    assert JobOk(j, TimesOf(u.events, b), Role(u.pc, b));
    if j.starts > j.spurious {
      EarlierDue(StartingTime(run), key, Stride(j), j.starts - j.spurious, j.handled, LatestWakeUp(run));
    }
  }
}
