// What the threaded scheduler promises over every interleaving of its dispatcher, the threads of its
// bodies, its callers and the holders of its event handles.

module SchedulerTheorems {
  import opened Options
  import opened EventQueue
  import opened SchedulerSteps

  // ----- the invariant of one body

  /** Between taking a due instant and deciding what becomes of it. */
  predicate Undecided(role: Option<Phase>) {
    match role
    case None => false
    case Some(ph) => ph.TryLock? || ph.SpawnCheck? || ph.SpawnThread? || ph.OneShotCheck? || ph.OneShotSpawn?
  }

  /** The keys a body has in the queue. At rest (role None) there is at most one, its next due instant;
      while the dispatcher is at it, the instant taken is still there, and in the end perhaps the entry
      with which it has been put back: behind it, or before it if the period is negative. */
  predicate KeysOk(j: Job, keys: seq<int>, role: Option<Phase>) {
    match role
    case None =>
      || (keys == [j.due] && j.freeAfterCancel == 0 && (j.period.None? ==> j.handled == 0))
      || (keys == [] && j.handled > 0 && (j.period.Some? ==> j.canceled))
    case Some(Erase) =>
      && j.handled > 0
      && ((keys == [j.due - Stride(j)] && (j.period.Some? ==> j.canceled))
          || (j.period.Some? && keys == BothKeys(j) && j.freeAfterCancel == 0))
    case Some(_) => j.handled > 0 && keys == [j.due - Stride(j)]
  }

  function BothKeys(j: Job): seq<int> {
    if Gap(j) >= 0 then [j.due - Gap(j), j.due] else [j.due + Gap(j), j.due]
  }

  predicate RoleOk(j: Job, role: Option<Phase>) {
    match role
    case None => true
    case Some(TryLock) => j.period.Some? && j.threads != []
    case Some(CancelCheck) => j.period.Some? && j.threads != []
    case Some(SpawnCheck) => j.period.Some? && (j.threads == [] || j.canceled)
    case Some(SpawnThread) => j.period.Some? && j.threads == []
    case Some(Reschedule) => j.period.Some?
    case Some(OneShotCheck) => j.period.None? && j.threads == []
    case Some(OneShotSpawn) => j.period.None? && j.threads == []
    case Some(Erase) => true
  }

  predicate ThreadsOk(j: Job) {
    && |j.threads| <= 1
    && (j.started ==> j.threads != [])
    && (j.period.Some? && j.threads != [] && !j.started ==> j.canceled)
    && (j.period.Some? && j.threads != [] && (j.threads[0].Exiting? || j.threads[0].Leaving? || j.threads[0].Ended?)
        ==> j.canceled)
    && (j.threads != [] && (j.threads[0].Leaving? || j.threads[0].Ended?) ==> !j.started)
    && (j.period.None? ==> !j.started && (j.handled == 0 ==> j.threads == []))
    && (j.done <==> j.period.None? && j.threads != [] && j.threads[0].Ended?)
    && (j.period.None? && j.threads != [] ==> j.threads[0].Spawned? || j.threads[0].Running? || j.threads[0].Ended?)
  }

  /** A thread that will call the body unless it is cancelled in time. */
  function Pending(j: Job): nat {
    One(j.threads != [] && (j.threads[0].Spawned? || j.threads[0].Notified? || j.threads[0].Looping?
                            || j.threads[0].Ready?))
  }

  /** A call of the body that cancelling cannot prevent any more. */
  function Committed(j: Job, role: Option<Phase>): nat {
    One(if j.period.Some? then j.threads == [Ready] else j.threads == [Spawned] || role == Some(OneShotSpawn))
  }

  predicate CountsOk(j: Job, role: Option<Phase>) {
    && j.handled == |j.threads| + j.notifies + j.missed + j.dropped + One(Undecided(role))
    && (j.dropped > 0 ==> j.canceled)
    && (j.notifies + j.missed > 0 ==> j.period.Some? && j.threads != [])
    && (j.period.None? ==> j.handled <= 1 && j.spurious == 0)
    && (j.threads == [] ==> j.spurious == 0)
    && j.starts + Pending(j) + j.unheard <= |j.threads| + j.notifies + j.spurious
    && (!j.canceled ==> j.starts + Pending(j) + j.unheard == |j.threads| + j.notifies + j.spurious)
    && (!j.canceled ==> j.startsAfterCancel == 0 && j.freeAfterCancel == 0)
    && j.startsAfterCancel + Committed(j, role) <= 1
    && j.freeAfterCancel <= One(!Undecided(role))
  }

  predicate JobOk(j: Job, keys: seq<int>, role: Option<Phase>) {
    && j.due == j.first + Stride(j) * j.handled
    && KeysOk(j, keys, role) && RoleOk(j, role) && ThreadsOk(j) && CountsOk(j, role)
  }

  lemma PickedOk(j: Job, keys: seq<int>)
    requires JobOk(j, keys, None) && keys != []
    ensures JobOk(Picked(j), keys, Some(FirstPhase(j)))
  {
  }

  /** The keys of the body after a phase: it may gain one, and lose the one at the front. */
  function KeysAfter(keys: seq<int>, key: int, again: bool, erase: bool): seq<int>
    requires keys != []
  {
    var grown := if !again then keys else if key < keys[0] then [key] + keys else keys + [key];
    if erase then grown[1..] else grown
  }

  lemma HandledKeysOk(j: Job, keys: seq<int>, phase: Phase)
    requires JobOk(j, keys, Some(phase))
    ensures keys != []
    ensures var o := Handle(j, phase);
      && KeysOk(o.job, KeysAfter(keys, keys[0] + Gap(j), o.again, o.erase), o.next)
      && (o.again || !phase.Erase? ==> keys == [j.due - Stride(j)])
  {
  }

  lemma HandledThreadsOk(j: Job, phase: Phase)
    requires RoleOk(j, Some(phase)) && ThreadsOk(j) && (j.period.None? ==> j.handled > 0)
    ensures var o := Handle(j, phase);
      RoleOk(o.job, o.next) && ThreadsOk(o.job)
  {
  }

  lemma HandledCountsOk(j: Job, phase: Phase)
    requires RoleOk(j, Some(phase)) && ThreadsOk(j) && CountsOk(j, Some(phase))
    ensures var o := Handle(j, phase);
      CountsOk(o.job, o.next)
  {
    if phase.TryLock? {
      NotifiedCountsOk(j);
    } else if phase.SpawnThread? || phase.OneShotSpawn? {
      assert j.threads + [Spawned] == [Spawned];
    }
  }

  lemma NotifiedCountsOk(j: Job)
    requires RoleOk(j, Some(TryLock)) && ThreadsOk(j) && CountsOk(j, Some(TryLock))
    ensures var o := Handle(j, TryLock);
      CountsOk(o.job, o.next)
  {
    assert j.threads == [j.threads[0]];
    assert NotifyOne(j.threads) == [if j.threads[0].Waiting? then SchedulerSteps.Notified else j.threads[0]];
  }

  /** Every branch of the dispatcher keeps the invariant of the body it is at. */
  lemma HandledOk(j: Job, keys: seq<int>, phase: Phase)
    requires JobOk(j, keys, Some(phase))
    ensures keys != []
    ensures var o := Handle(j, phase);
      JobOk(o.job, KeysAfter(keys, keys[0] + Gap(j), o.again, o.erase), o.next)
  {
    HandledKeysOk(j, keys, phase);
    HandledThreadsOk(j, phase);
    HandledCountsOk(j, phase);
  }

  lemma OneShotMoveOk(j: Job, keys: seq<int>, role: Option<Phase>)
    requires JobOk(j, keys, role) && CanMove(j, 0) && j.period.None?
    ensures JobOk(MoveThread(j, 0), keys, role)
  {
    var u := MoveThread(j, 0);
    assert j.threads[0].Spawned? || j.threads[0].Running?;
    assert j.threads == [j.threads[0]] && u.threads == [u.threads[0]];
  }

  lemma PeriodicMoveThreadsOk(j: Job)
    requires ThreadsOk(j) && CanMove(j, 0) && j.period.Some?
    ensures ThreadsOk(MoveThread(j, 0))
  {
    assert j.threads == [j.threads[0]];
  }

  lemma PeriodicMoveCountsOk(j: Job, role: Option<Phase>)
    requires ThreadsOk(j) && CountsOk(j, role) && CanMove(j, 0) && j.period.Some?
    ensures CountsOk(MoveThread(j, 0), role)
  {
    var u := MoveThread(j, 0);
    assert j.threads == [j.threads[0]] && u.threads == [u.threads[0]];
    assert Committed(u, role) == One(u.threads[0].Ready?);
    assert Committed(j, role) == One(j.threads[0].Ready?);
  }

  /** A step of a thread is none of the dispatcher's business. */
  lemma MoveKeepsPlace(j: Job, t: nat)
    requires CanMove(j, t)
    ensures var u := MoveThread(j, t);
      && |u.threads| == |j.threads| && u.period == j.period && u.canceled == j.canceled
      && u.first == j.first && u.due == j.due && u.handled == j.handled && u.freeAfterCancel == j.freeAfterCancel
  {
  }

  lemma MoveOk(j: Job, keys: seq<int>, role: Option<Phase>, t: nat)
    requires JobOk(j, keys, role) && CanMove(j, t)
    ensures JobOk(MoveThread(j, t), keys, role)
  {
    if j.period.None? {
      OneShotMoveOk(j, keys, role);
    } else {
      PeriodicMoveThreadsOk(j);
      PeriodicMoveCountsOk(j, role);
      MoveKeepsPlace(j, t);
    }
  }

  lemma WokenOk(j: Job, keys: seq<int>, role: Option<Phase>, t: nat)
    requires JobOk(j, keys, role) && t < |j.threads| && j.threads[t].Waiting?
    ensures JobOk(Woken(j, t), keys, role)
  {
  }

  lemma CancelOk(j: Job, keys: seq<int>, role: Option<Phase>)
    requires JobOk(j, keys, role)
    ensures JobOk(j.(canceled := true), keys, role)
  {
  }

  // ----- the invariant of the scheduler

  /** What the dispatcher is doing to body b. */
  function Role(pc: DispatchPc, b: nat): Option<Phase> {
    if pc.Handling? && pc.it.body == b then Some(pc.phase) else None
  }

  predicate OrdersBelow(q: seq<Entry>, n: nat) {
    forall x :: x in q ==> x.order < n
  }

  /** The queue is sorted, the entry being handled is due, until the end it heads the queue, and then its
      body does; and what this pass has erased was due. */
  predicate QueueOk(s: State) {
    && Sorted(s.events) && OrdersBelow(s.events, s.inserted) && BodiesBelow(s.events, |s.jobs|)
    && (s.pc.Handling? ==>
          && HeadDue(s) && s.startingTime + s.pc.it.time <= s.now && s.events[0].body == s.pc.it.body
          && (!s.pc.phase.Erase? ==> s.events[0] == s.pc.it))
    && (forall x :: x in s.pass ==> s.startingTime + x.time <= s.now)
    && (s.pc.NotRunning? ==> s.pass == [])
  }

  predicate JobsOk(s: State) {
    forall b :: 0 <= b < |s.jobs| ==> JobOk(s.jobs[b], TimesOf(s.events, b), Role(s.pc, b))
  }

  predicate Inv(s: State) {
    QueueOk(s) && JobsOk(s)
  }

  lemma {:induction false} NoTimes(q: seq<Entry>, n: nat, b: nat)
    requires BodiesBelow(q, n) && n <= b
    ensures TimesOf(q, b) == []
  {
    if q == [] {
    } else {
      NoTimes(q[1..], n, b);
    }
  }

  lemma InitialInv()
    ensures Inv(INITIAL)
  {
  }

  lemma ScheduleKeepsInv(s: State, key: int, period: Option<int>)
    requires Inv(s) && Enabled(s, Schedule(key, period))
    ensures Inv(Apply(s, Schedule(key, period)))
  {
    var n := |s.jobs|;
    var e := Entry(key, s.inserted, n);
    var u := Apply(s, Schedule(key, period));
    InsertSorted(s.events, e);
    InsertMembers(s.events, e);
    InsertBelow(s.events, e, n + 1);
    forall b | 0 <= b < |u.jobs| ensures JobOk(u.jobs[b], TimesOf(u.events, b), Role(u.pc, b)) {
      InsertTimes(s.events, e, b);
      NoTimes(s.events, n, n);
      assert b < n ==> u.jobs[b] == s.jobs[b];
    }
  }

  lemma JobMoveKeepsInv(s: State, b: nat, j: Job)
    requires Inv(s) && b < |s.jobs| && JobOk(j, TimesOf(s.events, b), Role(s.pc, b))
    ensures Inv(s.(jobs := s.jobs[b := j]))
  {
  }

  lemma PickKeepsInv(s: State)
    requires Inv(s) && s.pc.Head? && Enabled(s, Dispatch)
    ensures Inv(PickHead(s))
  {
    if HeadDue(s) {
      var b := s.events[0].body;
      PickedOk(s.jobs[b], TimesOf(s.events, b));
    }
  }

  /** The queue after a phase. */
  function QueueAfter(q: seq<Entry>, e: Entry, again: bool, erase: bool): seq<Entry>
    requires q != []
  {
    var grown := if again then Insert(q, e) else q;
    if erase then grown[1..] else grown
  }

  lemma QueueStep(q: seq<Entry>, e: Entry, again: bool, erase: bool)
    requires Sorted(q) && OrdersBelow(q, e.order) && q != []
    ensures var r := QueueAfter(q, e, again, erase);
      && Sorted(r) && OrdersBelow(r, e.order + One(again))
      && (!erase ==> r != [] && (r[0] == q[0] || (r[0] == e && e.time < q[0].time)))
  {
    InsertSorted(q, e);
    InsertMembers(q, e);
    InsertHead(q, e);
  }

  /** What is erased is the head, or the entry put in before it. */
  lemma ErasedIsEarly(q: seq<Entry>, e: Entry)
    requires q != []
    ensures Insert(q, e)[0].time <= q[0].time
  {
  }

  lemma QueueBodies(q: seq<Entry>, e: Entry, again: bool, erase: bool, n: nat)
    requires q != [] && BodiesBelow(q, n) && e.body < n
    ensures BodiesBelow(QueueAfter(q, e, again, erase), n)
  {
    InsertBelow(q, e, n);
  }

  /** The keys of every body after a phase. */
  lemma KeysStep(q: seq<Entry>, e: Entry, again: bool, erase: bool, b: nat)
    requires Sorted(q) && q != [] && q[0].body == e.body
    requires again ==> TimesOf(q, e.body) == [q[0].time]
    ensures TimesOf(q, e.body) != [] && TimesOf(q, e.body)[0] == q[0].time
    ensures TimesOf(QueueAfter(q, e, again, erase), b) ==
      if b == e.body then KeysAfter(TimesOf(q, b), e.time, again, erase) else TimesOf(q, b)
  {
    if again {
      if q[0].time <= e.time {
        InsertSecondTime(q, e);
      }
      InsertHead(q, e);
      InsertTimes(q, e, b);
    }
  }

  /** The entry the body goes back with is one period from the one taken. */
  lemma NextKey(s: State)
    requires Inv(s) && s.pc.Handling? && Enabled(s, Dispatch)
    ensures var it, j := s.pc.it, s.jobs[s.pc.it.body];
      && JobOk(j, TimesOf(s.events, it.body), Some(s.pc.phase))
      && (!s.pc.phase.Erase? ==>
            s.events[0] == it && it.time == j.due - Stride(j) && TimesOf(s.events, it.body) == [it.time])
  {
    var it := s.pc.it;
    assert Role(s.pc, it.body) == Some(s.pc.phase);
    HandledKeysOk(s.jobs[it.body], TimesOf(s.events, it.body), s.pc.phase);
  }

  /** The entry with which a body goes back into the queue. */
  function Again(s: State, o: Outcome): Entry
    requires s.pc.Handling?
  {
    Entry(s.pc.it.time + Gap(o.job), s.inserted, s.pc.it.body)
  }

  /** What is true of every outcome. */
  predicate Plain(o: Outcome, j: Job, phase: Phase) {
    && o.job.period == j.period
    && (o.erase <==> o.next.None?)
    && (o.next.Some? && o.again ==> o.next.value.Erase?)
    && (phase.Erase? ==> o.erase && !o.again)
  }

  lemma HandlePlain(j: Job, phase: Phase)
    ensures Plain(Handle(j, phase), j, phase)
  {
  }

  lemma ConcludeKeepsQueue(s: State, o: Outcome)
    requires QueueOk(s) && Enabled(s, Dispatch) && s.pc.Handling?
    requires Plain(o, s.jobs[s.pc.it.body], s.pc.phase)
    ensures QueueOk(Conclude(s, o, s.pc.it.time))
    ensures Conclude(s, o, s.pc.it.time).events == QueueAfter(s.events, Again(s, o), o.again, o.erase)
  {
    var e := Again(s, o);
    QueueStep(s.events, e, o.again, o.erase);
    QueueBodies(s.events, e, o.again, o.erase, |s.jobs|);
    ErasedIsEarly(s.events, e);
    var u := Conclude(s, o, s.pc.it.time);
    assert u.events == QueueAfter(s.events, e, o.again, o.erase);
  }

  lemma HandleIsConclude(s: State)
    requires Inv(s) && s.pc.Handling? && Enabled(s, Dispatch)
    ensures HandleHead(s) == Conclude(s, Handle(s.jobs[s.pc.it.body], s.pc.phase), s.pc.it.time)
  {
  }

  lemma HandleKeepsQueue(s: State)
    requires Inv(s) && s.pc.Handling? && Enabled(s, Dispatch)
    ensures QueueOk(HandleHead(s))
  {
    var o := Handle(s.jobs[s.pc.it.body], s.pc.phase);
    HandlePlain(s.jobs[s.pc.it.body], s.pc.phase);
    ConcludeKeepsQueue(s, o);
    HandleIsConclude(s);
  }

  lemma ConcludeKeepsJob(s: State, o: Outcome, b: nat)
    requires QueueOk(s) && s.pc.Handling? && Enabled(s, Dispatch) && b < |s.jobs|
    requires JobOk(s.jobs[b], TimesOf(s.events, b), Role(s.pc, b))
    requires var keys := TimesOf(s.events, s.pc.it.body);
      && keys != [] && (o.again ==> keys == [s.pc.it.time] && s.events[0] == s.pc.it)
      && (b == s.pc.it.body && !s.pc.phase.Erase? ==> s.events[0] == s.pc.it && keys == [s.pc.it.time])
      && (s.pc.phase.Erase? ==> !o.again)
      && (b == s.pc.it.body ==>
            JobOk(o.job, KeysAfter(keys, keys[0] + Gap(o.job), o.again, o.erase), o.next))
    ensures var u := Conclude(s, o, s.pc.it.time);
      JobOk(u.jobs[b], TimesOf(QueueAfter(s.events, Again(s, o), o.again, o.erase), b), Role(u.pc, b))
  {
    KeysStep(s.events, Again(s, o), o.again, o.erase, b);
  }

  lemma HandleKeepsJobs(s: State)
    requires Inv(s) && s.pc.Handling? && Enabled(s, Dispatch)
    ensures JobsOk(HandleHead(s))
  {
    var j := s.jobs[s.pc.it.body];
    NextKey(s);
    HandlePlain(j, s.pc.phase);
    var o := Handle(j, s.pc.phase);
    HandledOk(j, TimesOf(s.events, s.pc.it.body), s.pc.phase);
    HandleIsConclude(s);
    ConcludeKeepsQueue(s, o);
    var u := HandleHead(s);
    forall b | 0 <= b < |u.jobs| ensures JobOk(u.jobs[b], TimesOf(u.events, b), Role(u.pc, b)) {
      assert JobOk(s.jobs[b], TimesOf(s.events, b), Role(s.pc, b));
      ConcludeKeepsJob(s, o, b);
    }
  }

  lemma StepKeepsInv(s: State, step: Step)
    requires Inv(s) && Enabled(s, step)
    ensures Inv(Apply(s, step))
  {
    match step
    case Schedule(key, period) => ScheduleKeepsInv(s, key, period);
    case Start(_) =>
    case WakeUp(_) =>
    case Dispatch =>
      if s.pc.Head? {
        PickKeepsInv(s);
      } else {
        HandleKeepsQueue(s);
        HandleKeepsJobs(s);
      }
    case Thread(b, t) =>
      MoveOk(s.jobs[b], TimesOf(s.events, b), Role(s.pc, b), t);
      JobMoveKeepsInv(s, b, MoveThread(s.jobs[b], t));
    case Spurious(b, t) =>
      WokenOk(s.jobs[b], TimesOf(s.events, b), Role(s.pc, b), t);
      JobMoveKeepsInv(s, b, Woken(s.jobs[b], t));
    case Cancel(b) =>
      CancelOk(s.jobs[b], TimesOf(s.events, b), Role(s.pc, b));
      JobMoveKeepsInv(s, b, s.jobs[b].(canceled := true));
  }

  lemma {:induction false} RunKeepsInv(s: State, steps: seq<Step>)
    requires Inv(s) && Possible(s, steps)
    ensures Inv(After(s, steps))
    decreases steps
  {
    if steps == [] {
    } else {
      StepKeepsInv(s, steps[0]);
      RunKeepsInv(Apply(s, steps[0]), steps[1..]);
    }
  }

  lemma Reachable(steps: seq<Step>)
    requires Possible(INITIAL, steps)
    ensures Inv(After(INITIAL, steps))
  {
    InitialInv();
    RunKeepsInv(INITIAL, steps);
  }

  // ----- one thread and one entry for each body

  /** Over every interleaving a body has at most one thread ever, so its calls never overlap; outside of
      its own handling it has at most one entry in the queue, and exactly one if it is periodic and not
      cancelled; and a body without a period is called at most once. */
  lemma CallsNeverOverlap(steps: seq<Step>, b: nat)
    requires Possible(INITIAL, steps)
    requires b < |After(INITIAL, steps).jobs|
    ensures var s := After(INITIAL, steps);
      && |s.jobs[b].threads| <= 1
      && |TimesOf(s.events, b)| <= (if Role(s.pc, b) == None then 1 else 2)
      && (Role(s.pc, b) == None && s.jobs[b].period.Some? && !s.jobs[b].canceled ==> |TimesOf(s.events, b)| == 1)
      && (s.jobs[b].period.None? ==> s.jobs[b].starts <= 1)
      && (s.jobs[b].done <==> s.jobs[b].period.None? && s.jobs[b].threads == [Ended])
  {
    Reachable(steps);
    var s := After(INITIAL, steps);
    assert JobOk(s.jobs[b], TimesOf(s.events, b), Role(s.pc, b));
  }

  // ----- no drift

  lemma {:induction false} EntryInTimes(q: seq<Entry>, i: nat)
    requires i < |q|
    ensures exists k :: 0 <= k < |TimesOf(q, q[i].body)| && TimesOf(q, q[i].body)[k] == q[i].time
  {
    if i == 0 {
      assert TimesOf(q, q[0].body)[0] == q[0].time;
    } else {
      EntryInTimes(q[1..], i - 1);
      var b := q[i].body;
      var k :| 0 <= k < |TimesOf(q[1..], b)| && TimesOf(q[1..], b)[k] == q[i].time;
      assert TimesOf(q, b)[if q[0].body == b then k + 1 else k] == q[i].time;
    }
  }

  predicate Regular(j: Job, key: int, role: Option<Phase>) {
    && (Gap(j) >= 0 ==>
          key == j.first + Gap(j) * j.handled || (role != None && key == j.first + Gap(j) * (j.handled - 1)))
    && (Gap(j) < 0 ==> key == j.first || (role == Some(Erase) && key == j.first + Gap(j)))
  }

  lemma OneLess(first: int, gap: int, n: int)
    ensures first + gap * n - gap == first + gap * (n - 1)
  {
  }

  lemma KeysAreRegular(j: Job, keys: seq<int>, role: Option<Phase>)
    requires JobOk(j, keys, role)
    ensures forall k :: 0 <= k < |keys| ==> Regular(j, keys[k], role)
  {
    OneLess(j.first, Gap(j), j.handled);
    assert Gap(j) < 0 ==> j.due == j.first;
    assert Gap(j) >= 0 ==> Stride(j) == Gap(j);
  }

  /** Every key in the queue is the body's first key plus a whole number of periods: as many as it has
      had due instants, or one less while the last of them is being handled. With a negative period the
      body stays at its first key, but for the entry about to be erased. */
  lemma NoDrift(steps: seq<Step>, i: nat)
    requires Possible(INITIAL, steps)
    requires i < |After(INITIAL, steps).events|
    ensures var s := After(INITIAL, steps); var e := s.events[i];
      && e.body < |s.jobs|
      && var j := s.jobs[e.body];
      && (Gap(j) >= 0 ==>
            || e.time == j.first + Gap(j) * j.handled
            || (Role(s.pc, e.body) != None && e.time == j.first + Gap(j) * (j.handled - 1)))
      && (Gap(j) < 0 ==> e.time == j.first || (Role(s.pc, e.body) == Some(Erase) && e.time == j.first + Gap(j)))
  {
    Reachable(steps);
    var s := After(INITIAL, steps);
    var b := s.events[i].body;
    EntryInTimes(s.events, i);
    KeysAreRegular(s.jobs[b], TimesOf(s.events, b), Role(s.pc, b));
  }

  /** What a run leaves alone in a body, and what only grows. */
  predicate Persists(j: Job, k: Job) {
    && k.first == j.first && k.period == j.period
    && (j.canceled ==> k.canceled && k.starts - k.startsAfterCancel == j.starts - j.startsAfterCancel)
    && k.starts >= j.starts && k.handled >= j.handled && k.freeAfterCancel >= j.freeAfterCancel
  }

  lemma HandlePersists(j: Job, phase: Phase)
    ensures Persists(j, Handle(j, phase).job)
  {
  }

  lemma MovePersists(j: Job, t: nat)
    requires CanMove(j, t)
    ensures Persists(j, MoveThread(j, t))
  {
  }

  lemma StepPersists(s: State, step: Step, b: nat)
    requires Enabled(s, step) && b < |s.jobs|
    ensures b < |Apply(s, step).jobs| && Persists(s.jobs[b], Apply(s, step).jobs[b])
  {
    match step
    case Dispatch =>
      if s.pc.Handling? {
        HandlePersists(s.jobs[s.pc.it.body], s.pc.phase);
      }
    case Thread(c, t) => MovePersists(s.jobs[c], t);
    case _ =>
  }

  lemma {:induction false} RunPersists(s: State, steps: seq<Step>, b: nat)
    requires Possible(s, steps) && b < |s.jobs|
    ensures b < |After(s, steps).jobs| && Persists(s.jobs[b], After(s, steps).jobs[b])
    decreases steps
  {
    if steps == [] {
    } else {
      StepPersists(s, steps[0], b);
      RunPersists(Apply(s, steps[0]), steps[1..], b);
    }
  }

  // ----- conservation of due instants

  /** Every due instant taken from the queue is accounted for: it started the thread, notified it, was
      missed, or found the body cancelled. And nothing is lost before cancellation: every due instant, and
      every spurious wakeup, has led to a call or is about to, unless it was missed or nobody heard it;
      afterwards there are at most so many calls. */
  lemma DueInstantsAccountedFor(steps: seq<Step>, b: nat)
    requires Possible(INITIAL, steps)
    requires b < |After(INITIAL, steps).jobs|
    ensures var s := After(INITIAL, steps); var j := s.jobs[b];
      Role(s.pc, b) == None ==>
        && j.handled == |j.threads| + j.notifies + j.missed + j.dropped
        && (j.period.Some? && !j.canceled && j.handled > 0 ==> j.handled == 1 + j.notifies + j.missed)
        && (!j.canceled ==> j.handled + j.spurious == j.starts + Pending(j) + j.missed + j.unheard)
        && j.starts + Pending(j) + j.missed + j.unheard + j.dropped <= j.handled + j.spurious
  {
    Reachable(steps);
    var s := After(INITIAL, steps);
    assert JobOk(s.jobs[b], TimesOf(s.events, b), Role(s.pc, b));
  }

  // ----- cancellation

  /** Once cancelled, a body is called at most one more time, whatever happens afterwards. */
  lemma OneCallAfterCancel(s: State, b: nat, steps: seq<Step>)
    requires Inv(s) && b < |s.jobs|
    requires Possible(Apply(s, Cancel(b)), steps)
    ensures b < |After(Apply(s, Cancel(b)), steps).jobs|
    ensures After(Apply(s, Cancel(b)), steps).jobs[b].starts <= s.jobs[b].starts + 1
  {
    var c := Apply(s, Cancel(b));
    StepKeepsInv(s, Cancel(b));
    RunKeepsInv(c, steps);
    RunPersists(c, steps, b);
    var u := After(c, steps);
    assert JobOk(u.jobs[b], TimesOf(u.events, b), Role(u.pc, b));
  }

  /** The dispatcher finds a cancelled body with its mutex free, or without a thread. */
  predicate FoundCanceled(s: State) {
    && s.pc.Handling? && s.pc.it.body < |s.jobs| && s.jobs[s.pc.it.body].canceled
    && (s.pc.phase.SpawnCheck? || s.pc.phase.OneShotCheck?
        || (s.pc.phase.TryLock? && MutexFree(s.jobs[s.pc.it.body].threads)))
  }

  /** Then its entry leaves the queue for good. */
  lemma CanceledLeavesQueue(s: State, steps: seq<Step>)
    requires Inv(s) && FoundCanceled(s) && Enabled(s, Dispatch)
    requires Possible(Apply(s, Dispatch), steps)
    ensures var u := After(Apply(s, Dispatch), steps);
      Role(u.pc, s.pc.it.body) == None ==> TimesOf(u.events, s.pc.it.body) == []
  {
    var b := s.pc.it.body;
    var d := Apply(s, Dispatch);
    StepKeepsInv(s, Dispatch);
    RunKeepsInv(d, steps);
    RunPersists(d, steps, b);
    var u := After(d, steps);
    assert JobOk(u.jobs[b], TimesOf(u.events, b), Role(u.pc, b));
  }

  /** If its thread could be notified, with the next two steps of the dispatcher, which is then back at the
      head of its loop. */
  lemma CanceledLeavesAtOnce(s: State)
    requires Inv(s) && FoundCanceled(s) && s.pc.phase.TryLock?
    ensures Enabled(s, Dispatch) && Enabled(Apply(s, Dispatch), Dispatch)
    ensures var u := Apply(Apply(s, Dispatch), Dispatch);
      u.pc == Head && TimesOf(u.events, s.pc.it.body) == [] && u.events == s.events[1..]
  {
    NextKey(s);
  }

  /** A due instant that finds the mutex taken puts the body back one period later, cancelled or not; a
      negative period leaves it where it was. */
  lemma MissedStaysQueued(s: State)
    requires Inv(s) && s.pc.Handling? && s.pc.phase.TryLock? && Enabled(s, Dispatch)
    requires !MutexFree(s.jobs[s.pc.it.body].threads)
    ensures var u := Apply(s, Dispatch); var b := s.pc.it.body;
      u.pc == Head && TimesOf(u.events, b) == [s.pc.it.time + Stride(s.jobs[b])]
  {
    var b := s.pc.it.body;
    NextKey(s);
    KeysStep(s.events, Again(s, Handle(s.jobs[b], TryLock)), true, true, b);
  }
}
