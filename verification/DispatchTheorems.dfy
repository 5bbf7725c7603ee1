// When a pass of the threaded scheduler's dispatch loop comes to an end, and when it does not.

module DispatchTheorems {
  import opened Options
  import opened EventQueue
  import opened SchedulerSteps
  import opened SchedulerTheorems

  lemma NeverStuck(s: State)
    requires Inv(s) && Dispatching(s.pc)
    ensures Enabled(s, Dispatch)
  {
    assert s.pc.Head? && HeadDue(s) ==> s.events[0].body < |s.jobs|;
  }

  // ----- a measure of what is left of a pass

  function Periods(jobs: seq<Job>): seq<Option<int>> {
    seq(|jobs|, b requires 0 <= b < |jobs| => jobs[b].period)
  }

  /** Handling the head takes one round off the queue. */
  lemma RoundDone(q: seq<Entry>, e: Entry, again: bool, periods: seq<Option<int>>, end: int)
    requires q != [] && q[0].time <= end
    requires again ==> e.body == q[0].body < |periods| && periods[e.body].Some?
                       && periods[e.body].value >= 1 && e.time == q[0].time + periods[e.body].value
    ensures Work(QueueAfter(q, e, again, true), periods, end) < Work(q, periods, end)
  {
    AtLeastOneRound(q[0], periods, end);
    if again {
      RoundTaken(q, e, periods, end);
    }
  }

  function PhaseRank(phase: Phase): nat {
    match phase
    case TryLock => 5
    case SpawnCheck => 5
    case OneShotCheck => 5
    case CancelCheck => 4
    case SpawnThread => 4
    case OneShotSpawn => 4
    case Reschedule => 3
    case Erase => 2
  }

  function PhaseMeasure(role: Option<Phase>, q: seq<Entry>, periods: seq<Option<int>>, end: int): nat {
    match role
    case None => 7 * Work(q, periods, end) + 6
    case Some(phase) =>
      if phase.Erase? && q != [] then 7 * Work(q[1..], periods, end) + 9
      else 7 * Work(q, periods, end) + PhaseRank(phase)
  }

  /** A bound on the dispatcher's steps before it waits again, however the other threads interfere. */
  function Measure(s: State): nat {
    match s.pc
    case NotRunning => 0
    case Idle => 0
    case Head => PhaseMeasure(None, s.events, Periods(s.jobs), s.now - s.startingTime)
    case Handling(_, phase) => PhaseMeasure(Some(phase), s.events, Periods(s.jobs), s.now - s.startingTime)
  }

  lemma PhaseDropsMeasure(j: Job, phase: Phase, q: seq<Entry>, e: Entry, periods: seq<Option<int>>, end: int)
    requires q != [] && q[0].time <= end
    requires Handle(j, phase).again ==>
      e.body == q[0].body < |periods| && periods[e.body].Some?
      && periods[e.body].value >= 1 && e.time == q[0].time + periods[e.body].value
    ensures var o := Handle(j, phase);
      PhaseMeasure(o.next, QueueAfter(q, e, o.again, o.erase), periods, end)
      < PhaseMeasure(Some(phase), q, periods, end)
  {
    RoundDone(q, e, Handle(j, phase).again, periods, end);
  }

  lemma ConcludeMeasure(s: State, o: Outcome)
    requires QueueOk(s) && Enabled(s, Dispatch) && s.pc.Handling?
    requires Plain(o, s.jobs[s.pc.it.body], s.pc.phase)
    ensures Measure(Conclude(s, o, s.pc.it.time)) ==
      PhaseMeasure(o.next, QueueAfter(s.events, Again(s, o), o.again, o.erase),
                   Periods(s.jobs), s.now - s.startingTime)
  {
    ConcludeKeepsQueue(s, o);
    assert Periods(s.jobs[s.pc.it.body := o.job]) == Periods(s.jobs);
  }

  /** If the body is put back at all, then at a later key. */
  predicate GoesOn(s: State) {
    s.pc.Handling? && s.pc.it.body < |s.jobs| && Handle(s.jobs[s.pc.it.body], s.pc.phase).again ==>
      Gap(s.jobs[s.pc.it.body]) >= 1
  }

  lemma HandlingDropsMeasure(s: State)
    requires Inv(s) && s.pc.Handling? && Enabled(s, Dispatch) && GoesOn(s)
    ensures Measure(Apply(s, Dispatch)) < Measure(s)
  {
    var j := s.jobs[s.pc.it.body];
    var o := Handle(j, s.pc.phase);
    HandlePlain(j, s.pc.phase);
    NextKey(s);
    PhaseDropsMeasure(j, s.pc.phase, s.events, Again(s, o), Periods(s.jobs), s.now - s.startingTime);
    ConcludeMeasure(s, o);
    HandleIsConclude(s);
  }

  lemma JobKeepsMeasure(s: State, b: nat, j: Job)
    requires b < |s.jobs| && j.period == s.jobs[b].period
    ensures Measure(s.(jobs := s.jobs[b := j])) == Measure(s)
  {
    assert Periods(s.jobs[b := j]) == Periods(s.jobs);
  }

  lemma DispatchDropsMeasure(s: State)
    requires Inv(s) && Enabled(s, Dispatch) && GoesOn(s)
    ensures Measure(Apply(s, Dispatch)) < Measure(s)
  {
    if s.pc.Handling? {
      HandlingDropsMeasure(s);
    } else if HeadDue(s) {
      JobKeepsMeasure(s, s.events[0].body, Picked(s.jobs[s.events[0].body]));
    }
  }

  /** A step of another thread or of the holder of a handle. */
  predicate FromOutside(step: Step) {
    step.Thread? || step.Spurious? || step.Cancel?
  }

  lemma OutsideKeepsMeasure(s: State, step: Step)
    requires Enabled(s, step) && FromOutside(step)
    ensures Measure(Apply(s, step)) == Measure(s)
  {
    match step
    case Thread(b, t) => JobKeepsMeasure(s, b, MoveThread(s.jobs[b], t));
    case Spurious(b, t) => JobKeepsMeasure(s, b, Woken(s.jobs[b], t));
    case Cancel(b) => JobKeepsMeasure(s, b, s.jobs[b].(canceled := true));
  }

  // ----- what is due

  /** An entry of the queue that is due. */
  predicate Due(s: State, e: Entry) {
    e in s.events && s.startingTime + e.time <= s.now && e.body < |s.jobs|
  }

  lemma SomethingDue(s: State, e: Entry)
    requires QueueOk(s) && Due(s, e)
    ensures HeadDue(s)
  {
    assert e == s.events[0] || Before(s.events[0], e);
  }

  /** When the dispatch loop goes back to waiting, nothing in the queue is due. */
  lemma NothingDueIsLeft(s: State)
    requires Inv(s) && Enabled(s, Dispatch) && Apply(s, Dispatch).pc.Idle?
    ensures var u := Apply(s, Dispatch);
      forall e :: e in u.events ==> u.startingTime + e.time > u.now
  {
    forall e | e in s.events ensures s.startingTime + e.time > s.now {
      assert e == s.events[0] || Before(s.events[0], e);
    }
  }

  // ----- a pass among other threads

  /** A body that leaves the queue, or goes on in it, whatever the other threads do: its period is
      positive, or it has none, or it was cancelled before it had a thread or after its thread ended. */
  predicate Tame(j: Job) {
    j.period.None? || j.period.value >= 1 || (j.canceled && !j.started)
  }

  predicate TameAt(j: Job, phase: Phase) {
    Tame(j) && (phase.TryLock? || phase.SpawnThread? ==> Gap(j) >= 1)
  }

  ghost predicate Calm(s: State) {
    Dispatching(s.pc) ==>
      && (forall e :: Due(s, e) ==> Tame(s.jobs[e.body]))
      && (s.pc.Handling? && s.pc.it.body < |s.jobs| ==> TameAt(s.jobs[s.pc.it.body], s.pc.phase))
  }

  lemma HandleKeepsTame(j: Job, phase: Phase)
    requires RoleOk(j, Some(phase)) && TameAt(j, phase)
    ensures var o := Handle(j, phase);
      && Tame(o.job) && (o.next.Some? ==> TameAt(o.job, o.next.value)) && (o.again ==> Gap(j) >= 1)
  {
  }

  lemma CalmGoesOn(s: State)
    requires Inv(s) && Enabled(s, Dispatch) && Calm(s)
    ensures GoesOn(s)
  {
  }

  lemma DispatchKeepsCalm(s: State)
    requires Inv(s) && Enabled(s, Dispatch) && Calm(s)
    ensures Calm(Apply(s, Dispatch))
  {
    if s.pc.Handling? {
      NextKey(s);
      var o := Handle(s.jobs[s.pc.it.body], s.pc.phase);
      HandleKeepsTame(s.jobs[s.pc.it.body], s.pc.phase);
      HandleIsConclude(s);
      ConcludedDue(s, o);
    } else if HeadDue(s) {
      assert Due(s, s.events[0]);
      PickedDue(s);
    }
  }

  /** After a phase nothing is due that was not, but perhaps the body handled. */
  lemma ConcludedDue(s: State, o: Outcome)
    requires QueueOk(s) && Enabled(s, Dispatch) && s.pc.Handling?
    requires o == Handle(s.jobs[s.pc.it.body], s.pc.phase)
    ensures var u := Conclude(s, o, s.pc.it.time);
      forall e :: Due(u, e) ==>
        e.body < |s.jobs| && |u.jobs| == |s.jobs|
        && (if e.body == s.pc.it.body then u.jobs[e.body] == o.job else Due(s, e) && u.jobs[e.body] == s.jobs[e.body])
  {
    HandlePlain(s.jobs[s.pc.it.body], s.pc.phase);
    ConcludeKeepsQueue(s, o);
    InsertMembers(s.events, Again(s, o));
  }

  lemma PickedDue(s: State)
    requires Enabled(s, Dispatch) && s.pc.Head? && HeadDue(s)
    ensures var u := PickHead(s);
      && u.pc.Handling? && u.pc.it == s.events[0] && u.pc.phase == FirstPhase(s.jobs[s.events[0].body])
      && forall e :: Due(u, e) ==>
           Due(s, e) && u.jobs[e.body] == if e.body == s.events[0].body then Picked(s.jobs[e.body]) else s.jobs[e.body]
  {
  }

  lemma OutsideKeepsCalm(s: State, step: Step)
    requires Inv(s) && Enabled(s, step) && FromOutside(step) && Calm(s)
    ensures Calm(Apply(s, step))
  {
    var u := Apply(s, step);
    forall e | Due(u, e) && Dispatching(u.pc) ensures Tame(u.jobs[e.body]) {
      assert Due(s, e);
    }
  }

  function Dispatches(steps: seq<Step>): nat {
    if steps == [] then 0 else One(steps[0].Dispatch?) + Dispatches(steps[1..])
  }

  predicate NoWakeUp(steps: seq<Step>) {
    forall k :: 0 <= k < |steps| ==> !steps[k].WakeUp?
  }

  lemma CalmStep(s: State, step: Step)
    requires Inv(s) && Enabled(s, step) && !step.WakeUp? && Calm(s)
    ensures Inv(Apply(s, step)) && Calm(Apply(s, step))
    ensures Measure(Apply(s, step)) + One(step.Dispatch?) <= Measure(s)
  {
    StepKeepsInv(s, step);
    match step
    case Dispatch =>
      CalmGoesOn(s);
      DispatchDropsMeasure(s);
      DispatchKeepsCalm(s);
    case Schedule(_, _) =>
    case Start(_) =>
    case _ =>
      OutsideKeepsMeasure(s, step);
      OutsideKeepsCalm(s, step);
  }

  /** Between two wakeups the dispatch loop makes a bounded number of steps: it terminates, even though
      it puts periodic bodies back into the queue and other threads go on running and cancelling. */
  lemma {:induction false} DispatchTerminates(s: State, steps: seq<Step>)
    requires Inv(s) && Calm(s) && Possible(s, steps) && NoWakeUp(steps)
    ensures Dispatches(steps) + Measure(After(s, steps)) <= Measure(s)
    decreases steps
  {
    if steps == [] {
    } else {
      CalmStep(s, steps[0]);
      DispatchTerminates(Apply(s, steps[0]), steps[1..]);
    }
  }

  /** One step of the dispatch loop in a calm state: possible, nearer to the end, and at the end nothing is
      due. */
  lemma DispatchStepOk(s: State)
    requires Inv(s) && Calm(s) && Dispatching(s.pc)
    ensures Enabled(s, Dispatch)
    ensures var u := Apply(s, Dispatch);
      && Inv(u) && Calm(u) && Measure(u) < Measure(s)
      && u.now == s.now && (u.pc.Idle? || Dispatching(u.pc))
      && (u.pc.Idle? ==> forall e :: e in u.events ==> u.startingTime + e.time > u.now)
  {
    NeverStuck(s);
    CalmStep(s, Dispatch);
    if Apply(s, Dispatch).pc.Idle? {
      NothingDueIsLeft(s);
    }
  }

  // ----- a pass that does not end

  lemma {:induction false} TimeOfEntry(q: seq<Entry>, b: nat, k: nat) returns (e: Entry)
    requires k < |TimesOf(q, b)|
    ensures e in q && e.body == b && e.time == TimesOf(q, b)[k]
  {
    if q[0].body == b && k == 0 {
      e := q[0];
    } else {
      e := TimeOfEntry(q[1..], b, if q[0].body == b then k - 1 else k);
    }
  }

  /** Body b has a period that is not positive, and its key, which therefore never grows, is due. */
  predicate Stays(s: State, b: nat) {
    && b < |s.jobs| && s.jobs[b].period.Some? && s.jobs[b].period.value <= 0
    && s.startingTime + s.jobs[b].due <= s.now
  }

  /** The dispatcher is at work, and such a body is not cancelled. */
  predicate Spinning(s: State, b: nat) {
    Inv(s) && Dispatching(s.pc) && Stays(s, b) && !s.jobs[b].canceled
  }

  /** Or it is cancelled, but its thread holds the mutex. */
  predicate Blocked(s: State, b: nat) {
    && Inv(s) && Dispatching(s.pc) && Stays(s, b)
    && s.jobs[b].canceled && s.jobs[b].started && !MutexFree(s.jobs[b].threads)
    && TimesOf(s.events, b) == [s.jobs[b].due]
    && (Role(s.pc, b) == None || Role(s.pc, b) == Some(TryLock))
  }

  lemma StaysDue(s: State, b: nat)
    requires Inv(s) && s.pc.Head? && Stays(s, b) && TimesOf(s.events, b) != []
    ensures HeadDue(s)
  {
    assert JobOk(s.jobs[b], TimesOf(s.events, b), Role(s.pc, b));
    var e := TimeOfEntry(s.events, b, 0);
    SomethingDue(s, e);
  }

  /** What is at work stays at work, unless nothing is due, and the body stays where it is. */
  lemma StaysOn(s: State, b: nat, step: Step)
    requires Enabled(s, step) && Dispatching(s.pc) && Stays(s, b) && (s.pc.Head? ==> HeadDue(s))
    ensures Dispatching(Apply(s, step).pc) && Stays(Apply(s, step), b)
    ensures step != Cancel(b) ==> Apply(s, step).jobs[b].canceled == s.jobs[b].canceled
  {
    match step
    case Dispatch =>
      if s.pc.Handling? {
        HandlePersists(s.jobs[s.pc.it.body], s.pc.phase);
        HandleStays(s.jobs[s.pc.it.body], s.pc.phase);
      }
    case _ =>
  }

  lemma HandleStays(j: Job, phase: Phase)
    ensures Handle(j, phase).job.due == j.due && Handle(j, phase).job.canceled == j.canceled
  {
  }

  lemma SpinsOn(s: State, b: nat, step: Step)
    requires Spinning(s, b) && Enabled(s, step) && step != Cancel(b)
    ensures Spinning(Apply(s, step), b)
  {
    assert JobOk(s.jobs[b], TimesOf(s.events, b), Role(s.pc, b));
    if s.pc.Head? {
      StaysDue(s, b);
    }
    StaysOn(s, b, step);
    StepKeepsInv(s, step);
  }

  /** Until that body is cancelled the dispatcher stays at work, whatever else happens. */
  lemma {:induction false} SpinsUntilCanceled(s: State, b: nat, steps: seq<Step>)
    requires Spinning(s, b) && Possible(s, steps)
    requires forall k :: 0 <= k < |steps| ==> steps[k] != Cancel(b)
    ensures Spinning(After(s, steps), b)
    decreases steps
  {
    if steps == [] {
    } else {
      SpinsOn(s, b, steps[0]);
      SpinsUntilCanceled(Apply(s, steps[0]), b, steps[1..]);
    }
  }

  lemma BlockedSpinsOn(s: State, b: nat)
    requires Blocked(s, b) && Enabled(s, Dispatch)
    ensures Blocked(Apply(s, Dispatch), b)
  {
    StepKeepsInv(s, Dispatch);
    assert JobOk(s.jobs[b], TimesOf(s.events, b), Role(s.pc, b));
    if s.pc.Head? {
      StaysDue(s, b);
    } else if s.pc.it.body == b {
      MissedStaysQueued(s);
    } else {
      OthersKeepKeys(s, b);
    }
  }

  lemma OthersKeepKeys(s: State, b: nat)
    requires Inv(s) && s.pc.Handling? && Enabled(s, Dispatch) && s.pc.it.body != b
    ensures TimesOf(Apply(s, Dispatch).events, b) == TimesOf(s.events, b)
  {
    var j := s.jobs[s.pc.it.body];
    var o := Handle(j, s.pc.phase);
    NextKey(s);
    HandlePlain(j, s.pc.phase);
    HandleIsConclude(s);
    ConcludeKeepsQueue(s, o);
    KeysStep(s.events, Again(s, o), o.again, o.erase, b);
  }

  predicate Stuck(s: State, b: nat) {
    Spinning(s, b) || Blocked(s, b)
  }

  /** The dispatcher, left alone for n steps. */
  function Alone(n: nat): seq<Step> {
    seq(n, _ => Dispatch)
  }

  lemma OneMoreAlone(s: State, n: nat)
    requires Enabled(s, Dispatch) && Possible(Apply(s, Dispatch), Alone(n))
    ensures Possible(s, Alone(n + 1)) && After(s, Alone(n + 1)) == After(Apply(s, Dispatch), Alone(n))
  {
    assert Alone(n + 1)[1..] == Alone(n);
  }

  /** It can make any number of steps and is still at work. */
  lemma {:induction false} DispatchNeedNotEnd(s: State, b: nat, n: nat)
    requires Stuck(s, b)
    ensures Possible(s, Alone(n)) && Stuck(After(s, Alone(n)), b)
    decreases n
  {
    if n == 0 {
    } else {
      NeverStuck(s);
      if Spinning(s, b) {
        SpinsOn(s, b, Dispatch);
      } else {
        BlockedSpinsOn(s, b);
      }
      DispatchNeedNotEnd(Apply(s, Dispatch), b, n - 1);
      OneMoreAlone(s, n - 1);
    }
  }

  // ----- the exact condition, for a dispatcher left alone

  /** A due body on which the dispatch loop does not get on by itself: with a period that is not positive,
      and not cancelled, or cancelled too late for a thread that holds the mutex. */
  predicate Stubborn(j: Job) {
    j.period.Some? && j.period.value <= 0 && (!j.canceled || (j.started && !MutexFree(j.threads)))
  }

  predicate DocileAt(j: Job, phase: Phase) {
    !Stubborn(j) && (phase.TryLock? ==> Gap(j) >= 1 || MutexFree(j.threads))
  }

  ghost predicate Docile(s: State) {
    && (forall e :: Due(s, e) ==> !Stubborn(s.jobs[e.body]))
    && (s.pc.Handling? && s.pc.it.body < |s.jobs| ==>
          DocileAt(s.jobs[s.pc.it.body], s.pc.phase))
  }

  lemma {:induction false} NotifyKeepsFree(threads: seq<ThreadPc>)
    requires MutexFree(threads)
    ensures MutexFree(NotifyOne(threads))
  {
    if threads == [] || threads[0].Waiting? {
    } else {
      NotifyKeepsFree(threads[1..]);
    }
  }

  lemma HandleKeepsDocile(j: Job, phase: Phase)
    requires RoleOk(j, Some(phase)) && DocileAt(j, phase)
    ensures var o := Handle(j, phase);
      && !Stubborn(o.job) && (o.next.Some? ==> DocileAt(o.job, o.next.value)) && (o.again ==> Gap(j) >= 1)
  {
    if MutexFree(j.threads) {
      NotifyKeepsFree(j.threads);
    }
  }

  lemma DispatchKeepsDocile(s: State)
    requires Inv(s) && Dispatching(s.pc) && Enabled(s, Dispatch) && Docile(s)
    ensures Docile(Apply(s, Dispatch)) && GoesOn(s)
  {
    if s.pc.Handling? {
      NextKey(s);
      var o := Handle(s.jobs[s.pc.it.body], s.pc.phase);
      HandleKeepsDocile(s.jobs[s.pc.it.body], s.pc.phase);
      HandleIsConclude(s);
      ConcludedDue(s, o);
    } else if HeadDue(s) {
      assert Due(s, s.events[0]);
      PickedDue(s);
    }
  }

  /** Left alone, the dispatcher goes back to waiting after n steps. */
  ghost predicate PassEnds(s: State, n: nat) {
    Possible(s, Alone(n)) && After(s, Alone(n)).pc.Idle?
  }

  lemma {:induction false} DocilePassEnds(s: State) returns (n: nat)
    requires Inv(s) && Dispatching(s.pc) && Docile(s)
    ensures PassEnds(s, n)
    decreases Measure(s)
  {
    NeverStuck(s);
    DispatchKeepsDocile(s);
    DispatchDropsMeasure(s);
    StepKeepsInv(s, Dispatch);
    var u := Apply(s, Dispatch);
    if u.pc.Idle? {
      n := 0;
    } else {
      n := DocilePassEnds(u);
    }
    OneMoreAlone(s, n);
    n := n + 1;
  }

  lemma StubbornIsStuck(s: State, e: Entry)
    requires Inv(s) && s.pc.Head? && Due(s, e) && Stubborn(s.jobs[e.body])
    ensures Stuck(s, e.body)
  {
    var b := e.body;
    var i :| 0 <= i < |s.events| && s.events[i] == e;
    EntryInTimes(s.events, i);
    assert JobOk(s.jobs[b], TimesOf(s.events, b), Role(s.pc, b));
  }

  /** Left alone, a pass of the dispatch loop comes to an end if and only if no due entry belongs to a
      stubborn body. */
  lemma PassEndsExactly(s: State)
    requires Inv(s) && s.pc.Head?
    ensures (exists n: nat :: PassEnds(s, n)) <==> forall e :: Due(s, e) ==> !Stubborn(s.jobs[e.body])
  {
    if forall e :: Due(s, e) ==> !Stubborn(s.jobs[e.body]) {
      var n := DocilePassEnds(s);
    } else {
      var e :| Due(s, e) && Stubborn(s.jobs[e.body]);
      StubbornIsStuck(s, e);
      forall n: nat ensures !PassEnds(s, n) {
        DispatchNeedNotEnd(s, e.body, n);
      }
    }
  }

  // ----- the exact condition, among other threads

  ghost predicate BoundedBy(s: State, bound: nat) {
    forall steps :: Possible(s, steps) && NoWakeUp(steps) ==> Dispatches(steps) <= bound
  }

  lemma {:induction false} DispatchesMore(a: seq<Step>, n: nat)
    ensures Dispatches(a + Alone(n)) >= n
    decreases |a| + n
  {
    var all := a + Alone(n);
    if all == [] {
    } else if a == [] {
      DispatchesMore([], n - 1);
      assert all[1..] == [] + Alone(n - 1);
    } else {
      DispatchesMore(a[1..], n);
      assert all[1..] == a[1..] + Alone(n);
    }
  }

  /** The thread of a cancelled body that counts as started can always come to hold the mutex. */
  lemma TakesMutex(s: State, b: nat) returns (steps: seq<Step>)
    requires Inv(s) && b < |s.jobs| && s.jobs[b].started && s.jobs[b].canceled
    ensures Possible(s, steps) && NoWakeUp(steps)
    ensures var u := After(s, steps);
      && |u.jobs| == |s.jobs| && u == s.(jobs := u.jobs)
      && u.jobs[b].due == s.jobs[b].due && u.jobs[b].period == s.jobs[b].period
      && u.jobs[b].started && u.jobs[b].canceled && !MutexFree(u.jobs[b].threads)
  {
    var j := s.jobs[b];
    assert JobOk(j, TimesOf(s.events, b), Role(s.pc, b));
    var t := j.threads[0];
    if HoldsMutex(t) {
      steps := [];
    } else if t.Waiting? {
      var s1 := Apply(s, Spurious(b, 0));
      assert s1.jobs[b].threads == [Notified];
      LoopingHolds(s1, b);
      steps := [Spurious(b, 0)] + [Thread(b, 0)];
      assert steps[1..] == [Thread(b, 0)];
    } else {
      assert j.threads == [t];
      LoopingHolds(s, b);
      steps := [Thread(b, 0)];
    }
  }

  lemma LoopingHolds(s: State, b: nat)
    requires b < |s.jobs| && s.jobs[b].period.Some?
    requires s.jobs[b].threads == [Notified] || s.jobs[b].threads == [Spawned]
    ensures Possible(s, [Thread(b, 0)])
    ensures After(s, [Thread(b, 0)]) == s.(jobs := s.jobs[b := s.jobs[b].(threads := [Looping])])
    ensures !MutexFree([Looping])
  {
    var u := Apply(s, Thread(b, 0));
    assert s.jobs[b].threads[0 := Looping] == [Looping];
    assert [Thread(b, 0)][1..] == [];
    assert After(s, [Thread(b, 0)]) == u;
    assert HoldsMutex([Looping][0]);
  }

  lemma StuckIsUnbounded(s: State, before: seq<Step>, b: nat, bound: nat)
    requires Possible(s, before) && NoWakeUp(before) && Stuck(After(s, before), b)
    ensures !BoundedBy(s, bound)
  {
    DispatchNeedNotEnd(After(s, before), b, bound + 1);
    AfterMore(s, before, Alone(bound + 1));
    DispatchesMore(before, bound + 1);
    assert NoWakeUp(before + Alone(bound + 1));
  }

  /** A due body that is not tame can get the dispatcher stuck. */
  lemma WildGetsStuck(s: State, e: Entry) returns (before: seq<Step>)
    requires Inv(s) && s.pc.Head? && Due(s, e) && !Tame(s.jobs[e.body])
    ensures Possible(s, before) && NoWakeUp(before) && Stuck(After(s, before), e.body)
  {
    var b := e.body;
    var i :| 0 <= i < |s.events| && s.events[i] == e;
    EntryInTimes(s.events, i);
    assert JobOk(s.jobs[b], TimesOf(s.events, b), Role(s.pc, b));
    if s.jobs[b].canceled {
      before := TakesMutex(s, b);
      RunKeepsInv(s, before);
    } else {
      before := [];
    }
  }

  /** Among other threads the number of steps in a pass is bounded, in advance and for all they may do, if
      and only if every body that is due is tame. */
  lemma PassBoundedExactly(s: State)
    requires Inv(s) && s.pc.Head?
    ensures (exists bound :: BoundedBy(s, bound)) <==> forall e :: Due(s, e) ==> Tame(s.jobs[e.body])
  {
    if Calm(s) {
      forall steps | Possible(s, steps) && NoWakeUp(steps) ensures Dispatches(steps) <= Measure(s) {
        DispatchTerminates(s, steps);
      }
      assert BoundedBy(s, Measure(s));
    } else {
      var e :| Due(s, e) && !Tame(s.jobs[e.body]);
      var before := WildGetsStuck(s, e);
      forall bound ensures !BoundedBy(s, bound) {
        StuckIsUnbounded(s, before, e.body, bound);
      }
    }
  }

  // ----- order within a pass

  /** A body is started or notified only once the clock has reached its due instant, and its entry is then
      the first of the queue: none is earlier, and none at the same key was put in before it. */
  lemma NeverEarly(steps: seq<Step>)
    requires Possible(INITIAL, steps)
    ensures var s := After(INITIAL, steps);
      && (forall x :: x in s.pass ==> s.startingTime + x.time <= s.now)
      && (s.pc.Handling? && !s.pc.phase.Erase? ==>
            && s.startingTime + s.pc.it.time <= s.now
            && forall e :: e in s.events ==> e == s.pc.it || Before(s.pc.it, e))
  {
    Reachable(steps);
    var s := After(INITIAL, steps);
    if s.pc.Handling? && !s.pc.phase.Erase? {
      forall e | e in s.events ensures e == s.pc.it || Before(s.pc.it, e) {
        assert e == s.events[0] || Before(s.events[0], e);
      }
    }
  }

  predicate NotBackward(step: Step) {
    step.Schedule? && step.period.Some? ==> step.period.value >= 0
  }

  /** No period asked for is negative. */
  predicate Forward(steps: seq<Step>) {
    forall k :: 0 <= k < |steps| ==> NotBackward(steps[k])
  }

  predicate Precedes(pass: seq<Entry>, q: seq<Entry>) {
    forall x, e :: x in pass && e in q ==> Before(x, e)
  }

  /** The entry handled stays at the head, and the pass so far came in order and precedes the queue. */
  predicate OrderOk(s: State) {
    && (forall b :: 0 <= b < |s.jobs| ==> Gap(s.jobs[b]) >= 0)
    && (s.pc.Handling? ==> s.events != [] && s.events[0] == s.pc.it)
    && Sorted(s.pass)
    && (Dispatching(s.pc) ==> Precedes(s.pass, s.events))
  }

  /** Putting an entry into a sorted queue that is not to be the first. */
  lemma PrecedesMore(pass: seq<Entry>, q: seq<Entry>, e: Entry)
    requires Precedes(pass, q) && OrdersBelow(q, e.order) && q != [] && q[0].time <= e.time
    ensures Precedes(pass, Insert(q, e)) && Insert(q, e)[0] == q[0]
  {
    InsertMembers(q, e);
    assert q[0] in q;
  }

  /** Erasing the head of a sorted queue. */
  lemma EraseHead(pass: seq<Entry>, q: seq<Entry>)
    requires Sorted(q) && q != [] && Sorted(pass) && Precedes(pass, q)
    ensures Sorted(pass + [q[0]]) && Precedes(pass + [q[0]], q[1..])
  {
    var p := pass + [q[0]];
    forall i, j | 0 <= i < j < |p| ensures Before(p[i], p[j]) {
      assert j == |pass| ==> pass[i] in pass && q[0] in q;
    }
    forall x, e | x in p && e in q[1..] ensures Before(x, e) {
      var k :| 0 <= k < |q[1..]| && q[1..][k] == e;
      assert q[k + 1] == e && Before(q[0], q[k + 1]);
    }
  }

  lemma OrderStep(pass: seq<Entry>, q: seq<Entry>, e: Entry, again: bool)
    requires Sorted(q) && OrdersBelow(q, e.order) && q != [] && Sorted(pass) && Precedes(pass, q)
    requires again ==> q[0].time <= e.time
    ensures var grown := if again then Insert(q, e) else q;
      && grown[0] == q[0] && Precedes(pass, grown)
      && Sorted(pass + [q[0]]) && Precedes(pass + [q[0]], grown[1..])
  {
    if again {
      PrecedesMore(pass, q, e);
      InsertSorted(q, e);
    }
    EraseHead(pass, if again then Insert(q, e) else q);
  }

  lemma ConcludeKeepsOrder(s: State, o: Outcome)
    requires QueueOk(s) && OrderOk(s) && Enabled(s, Dispatch) && s.pc.Handling?
    requires Plain(o, s.jobs[s.pc.it.body], s.pc.phase)
    ensures OrderOk(Conclude(s, o, s.pc.it.time))
  {
    var e := Again(s, o);
    OrderStep(s.pass, s.events, e, o.again);
    var grown := if o.again then Insert(s.events, e) else s.events;
    var u := Conclude(s, o, s.pc.it.time);
    assert u.events == (if o.erase then grown[1..] else grown)
        && u.pass == (if o.erase then s.pass + [grown[0]] else s.pass);
  }

  lemma StepKeepsOrder(s: State, step: Step)
    requires Inv(s) && OrderOk(s) && Enabled(s, step) && NotBackward(step)
    ensures OrderOk(Apply(s, step))
  {
    if step.Dispatch? && s.pc.Handling? {
      HandlePlain(s.jobs[s.pc.it.body], s.pc.phase);
      HandleIsConclude(s);
      ConcludeKeepsOrder(s, Handle(s.jobs[s.pc.it.body], s.pc.phase));
    }
  }

  lemma {:induction false} RunKeepsOrder(s: State, steps: seq<Step>)
    requires Inv(s) && OrderOk(s) && Possible(s, steps) && Forward(steps)
    ensures OrderOk(After(s, steps))
    decreases steps
  {
    if steps == [] {
    } else {
      assert NotBackward(steps[0]);
      StepKeepsOrder(s, steps[0]);
      StepKeepsInv(s, steps[0]);
      assert forall k :: 0 <= k < |steps[1..]| ==> steps[1..][k] == steps[k + 1];
      RunKeepsOrder(Apply(s, steps[0]), steps[1..]);
    }
  }

  /** Unless some period is negative, the entries erased within one pass come in order of their keys, first
      come first served among equal keys, and the entry erased is always the one handled. */
  lemma PassInOrder(steps: seq<Step>)
    requires Possible(INITIAL, steps) && Forward(steps)
    ensures var s := After(INITIAL, steps);
      && Sorted(s.pass)
      && (Dispatching(s.pc) ==> Precedes(s.pass, s.events))
      && (s.pc.Handling? ==> s.events != [] && s.events[0] == s.pc.it)
  {
    InitialInv();
    RunKeepsOrder(INITIAL, steps);
  }

  // ----- runs with a period that is not positive

  /** A body scheduled at zero with any such period keeps the dispatcher busy from its first wakeup on. */
  lemma NonpositivePeriodSpins(period: int)
    requires period <= 0
    ensures var steps := [Schedule(0, Some(period)), Start(0), WakeUp(0)];
      Possible(INITIAL, steps) && Spinning(After(INITIAL, steps), 0)
  {
    var steps := [Schedule(0, Some(period)), Start(0), WakeUp(0)];
    var s1 := Apply(INITIAL, Schedule(0, Some(period)));
    var s2 := Apply(s1, Start(0));
    var s3 := Apply(s2, WakeUp(0));
    assert steps[1..] == [Start(0), WakeUp(0)] && steps[1..][1..] == [WakeUp(0)] && [WakeUp(0)][1..] == [];
    assert After(s2, [WakeUp(0)]) == s3;
    assert After(s1, [Start(0), WakeUp(0)]) == s3;
    InitialInv();
    RunKeepsInv(INITIAL, steps);
  }

  /** The body is put back with its next key and then the head of the queue is erased: that is the entry
      handled exactly when the period is not negative. */
  lemma EraseHitsTheHandledEntry(s: State)
    requires Enabled(s, Dispatch) && s.pc.Handling? && s.pc.phase.Reschedule?
    requires s.events[0] == s.pc.it && !s.jobs[s.pc.it.body].canceled
    ensures var u := Apply(s, Dispatch);
      && Enabled(u, Dispatch)
      && (Apply(u, Dispatch).pass == s.pass + [s.pc.it] <==> Gap(s.jobs[s.pc.it.body]) >= 0)
  {
    var it := s.pc.it;
    var e := Entry(it.time + Gap(s.jobs[it.body]), s.inserted, it.body);
    InsertHead(s.events, e);
    var u := Apply(s, Dispatch);
    var v := Apply(u, Dispatch);
    assert v.pass == s.pass + [u.events[0]] && v.pass[|s.pass|] == u.events[0];
    assert (s.pass + [it])[|s.pass|] == it;
  }

  /** The same after a missed deadline. */
  lemma MissedEraseHitsTheHandledEntry(s: State)
    requires Enabled(s, Dispatch) && s.pc.Handling? && s.pc.phase.TryLock?
    requires s.events[0] == s.pc.it && !MutexFree(s.jobs[s.pc.it.body].threads)
    ensures Apply(s, Dispatch).pass == s.pass + [s.pc.it] <==> Gap(s.jobs[s.pc.it.body]) >= 0
  {
    var it := s.pc.it;
    var e := Entry(it.time + Gap(s.jobs[it.body]), s.inserted, it.body);
    InsertHead(s.events, e);
    var u := Apply(s, Dispatch);
    assert u.pass == s.pass + [Insert(s.events, e)[0]] && u.pass[|s.pass|] == Insert(s.events, e)[0];
    assert (s.pass + [it])[|s.pass|] == it;
  }
}
