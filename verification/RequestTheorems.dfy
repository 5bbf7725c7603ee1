// What becomes of each request made of the simulator, by its owner or by a callback: what is scheduled is
// called, when and how often, and what cancelling, stopping and changing a period do to the calls.

module RequestTheorems {
  import opened Options
  import opened EventQueue
  import opened MicroSimulator
  import opened SimulationTheorems

  lemma {:induction false} AppliedAllConcat(c: Clock, a: seq<Request>, b: seq<Request>)
    requires Wellformed(c)
    ensures AppliedAll(c, a + b) == AppliedAll(AppliedAll(c, a), b)
    decreases a
  {
    if a == [] {
      assert a + b == b;
    } else {
      assert (a + b)[0] == a[0] && (a + b)[1..] == a[1..] + b;
      AppliedAllConcat(Applied(c, a[0]), a[1..], b);
    }
  }

  /** The requests up to the k-th, the k-th, and the rest. */
  lemma AppliedAllAround(c: Clock, rs: seq<Request>, k: nat)
    requires Wellformed(c) && k < |rs|
    ensures AppliedAll(c, rs) == AppliedAll(Applied(AppliedAll(c, rs[..k]), rs[k]), rs[k + 1..])
  {
    assert rs == rs[..k] + rs[k..] && rs[k..][1..] == rs[k + 1..];
    AppliedAllConcat(c, rs[..k], rs[k..]);
  }

  /** What a callback asks for when the simulator calls the head of its queue. */
  function Asked<W>(p: Program<W>, s: Sim<W>): seq<Request>
    requires s.clock.events != []
  {
    p(s.world, s.clock.(now := s.clock.events[0].time), s.clock.events[0].body).1
  }

  /** The clock when its k-th request is carried out. */
  function Midway<W>(p: Program<W>, s: Sim<W>, k: nat): Clock
    requires Wellformed(s.clock) && s.clock.events != [] && k <= |Asked(p, s)|
  {
    AppliedAll(s.clock.(now := s.clock.events[0].time), Asked(p, s)[..k])
  }

  /** The simulator calls the head of its queue next. */
  predicate Calls(c: Clock) {
    Wellformed(c) && c.events != [] && !c.bodies[c.events[0].body].canceled
  }

  // ----- cancelling

  lemma CancelMarks(c: Clock, rs: seq<Request>, k: nat, h: nat)
    requires Wellformed(c) && k < |rs| && rs[k] == Cancel(h) && h < |AppliedAll(c, rs[..k]).bodies|
    ensures h < |AppliedAll(c, rs).bodies| && AppliedAll(c, rs).bodies[h].canceled
  {
    AppliedAllAround(c, rs, k);
    AppliedKeepsCanceled(Applied(AppliedAll(c, rs[..k]), rs[k]), rs[k + 1..], h);
  }

  /** What is cancelled is never called again: not after any number of turns. */
  lemma CancelWorks<W>(p: Program<W>, s: Sim<W>, end: int, n: nat, h: nat)
    requires Wellformed(s.clock) && h < |s.clock.bodies|
    ensures var r := SoFar(p, s.(clock := Applied(s.clock, Cancel(h))), end, n);
      s.trace <= r.trace && forall i :: |s.trace| <= i < |r.trace| ==> r.trace[i].body != h
  {
    CancelledNeverCalled(p, s.(clock := Applied(s.clock, Cancel(h))), end, n, h);
  }

  /** The same when a callback cancels it, be it the body just called or one scheduled a moment before. */
  lemma CancelInCallbackWorks<W>(p: Program<W>, s: Sim<W>, end: int, n: nat, k: nat, h: nat)
    requires Calls(s.clock) && k < |Asked(p, s)| && Asked(p, s)[k] == Cancel(h) && h < |Midway(p, s, k).bodies|
    ensures Turn(p, s).trace == s.trace + [s.clock.events[0]]
    ensures var r := SoFar(p, Turn(p, s), end, n);
      Turn(p, s).trace <= r.trace && forall i :: |s.trace| < i < |r.trace| ==> r.trace[i].body != h
  {
    CancelMarks(s.clock.(now := s.clock.events[0].time), Asked(p, s), k, h);
    CancelledNeverCalled(p, Turn(p, s), end, n, h);
  }

  // ----- stopping

  lemma {:induction false} StoppedStays(c: Clock, rs: seq<Request>)
    requires Wellformed(c) && c.stopped
    ensures AppliedAll(c, rs).stopped
    decreases rs
  {
    if rs == [] {
    } else {
      StoppedStays(Applied(c, rs[0]), rs[1..]);
    }
  }

  /** After a stop there is no further turn, whatever is queued. */
  lemma StopWorks<W>(p: Program<W>, s: Sim<W>, end: int, n: nat)
    requires Wellformed(s.clock)
    ensures var t := s.(clock := Applied(s.clock, Stop));
      SoFar(p, t, end, n) == t && Loop(p, t, end, n) == Some(Leave(t, end)) && Leave(t, end).trace == s.trace
  {
  }

  /** When a callback stops the simulator, its call is the last. */
  lemma StopInCallbackWorks<W>(p: Program<W>, s: Sim<W>, end: int, n: nat, k: nat)
    requires Calls(s.clock) && k < |Asked(p, s)| && Asked(p, s)[k] == Stop
    ensures var t := Turn(p, s);
      && t.trace == s.trace + [s.clock.events[0]]
      && SoFar(p, t, end, n) == t && Loop(p, t, end, n) == Some(Leave(t, end)) && Leave(t, end).trace == t.trace
  {
    var c := s.clock.(now := s.clock.events[0].time);
    AppliedAllAround(c, Asked(p, s), k);
    StoppedStays(Applied(AppliedAll(c, Asked(p, s)[..k]), Stop), Asked(p, s)[k + 1..]);
  }

  /** Simulating to an instant that has passed makes no call and sets the clock back to it. */
  lemma PastIsQuiet<W>(p: Program<W>, s: Sim<W>, end: int, n: nat)
    requires Wellformed(s.clock) && end < s.clock.now
    ensures Loop(p, s, end, n) == Some(s.(clock := s.clock.(now := end)))
  {
  }

  // ----- what stays with a body

  lemma {:induction false} RequestsKeepBody(c: Clock, rs: seq<Request>, h: nat)
    requires Wellformed(c) && h < |c.bodies|
    ensures var b, d := c.bodies[h], AppliedAll(c, rs).bodies[h];
      && d.code == b.code && (d.period.Some? <==> b.period.Some?)
      && (d.canceled <==> b.canceled || Cancel(h) in rs)
    decreases rs
  {
    if rs == [] {
    } else {
      RequestsKeepBody(Applied(c, rs[0]), rs[1..], h);
      assert Cancel(h) in rs <==> rs[0] == Cancel(h) || Cancel(h) in rs[1..];
    }
  }

  /** A body keeps the callback it was scheduled with, and whether it is periodic. */
  lemma {:induction false} BodyStays<W>(p: Program<W>, s: Sim<W>, end: int, n: nat, h: nat)
    requires Wellformed(s.clock) && h < |s.clock.bodies|
    ensures var r := SoFar(p, s, end, n);
      && h < |r.clock.bodies| && r.clock.bodies[h].code == s.clock.bodies[h].code
      && (r.clock.bodies[h].period.Some? <==> s.clock.bodies[h].period.Some?)
    decreases n
  {
    if n == 0 || !Continues(s.clock, end) {
    } else {
      RequestsKeepBody(s.clock.(now := s.clock.events[0].time), Asked(p, s), h);
      BodyStays(p, Turn(p, s), end, n - 1, h);
    }
  }

  // ----- the state the callbacks share

  /** What the callbacks of these calls make of the shared state, each finding the clock given for it. */
  function Ran<W>(p: Program<W>, world: W, seen: seq<Clock>, calls: seq<Entry>): W
    requires |seen| == |calls|
    decreases calls
  {
    if calls == [] then world
    else Ran(p, p(world, seen[0], calls[0].body).0, seen[1..], calls[1..])
  }

  /** From s to r the shared state has gone through the calls made, which have found these clocks, each at the
      time it is due. */
  ghost predicate Shared<W>(p: Program<W>, s: Sim<W>, r: Sim<W>, seen: seq<Clock>) {
    && s.trace <= r.trace && |seen| == |r.trace| - |s.trace|
    && r.world == Ran(p, s.world, seen, r.trace[|s.trace|..])
    && forall k :: 0 <= k < |seen| ==> seen[k].now == r.trace[|s.trace| + k].time
  }

  lemma SharedBefore<W>(p: Program<W>, s: Sim<W>, t: Sim<W>, r: Sim<W>, head: Entry, c: Clock, seen: seq<Clock>)
    requires Shared(p, t, r, seen) && t.trace == s.trace + [head] && c.now == head.time
    requires t.world == p(s.world, c, head.body).0
    ensures Shared(p, s, r, [c] + seen)
  {
    var calls, more := r.trace[|s.trace|..], [c] + seen;
    assert calls[0] == r.trace[|s.trace|] == t.trace[|s.trace|] == head && calls[1..] == r.trace[|t.trace|..];
    assert more[1..] == seen;
  }

  /** Each call finds the shared state as the call before has left it, and the clock at the time it is due; and
      the state after any number of turns is what the last call has left. */
  lemma {:induction false} CallsShareState<W>(p: Program<W>, s: Sim<W>, end: int, n: nat) returns (seen: seq<Clock>)
    requires Wellformed(s.clock)
    ensures Shared(p, s, SoFar(p, s, end, n), seen)
    decreases n
  {
    if n == 0 || !Continues(s.clock, end) {
      seen := [];
    } else {
      var t, head := Turn(p, s), s.clock.events[0];
      var c := s.clock.(now := head.time);
      seen := CallsShareState(p, t, end, n - 1);
      if !c.bodies[head.body].canceled {
        SharedBefore(p, s, t, SoFar(p, t, end, n - 1), head, c, seen);
        seen := [c] + seen;
      }
    }
  }

  // ----- what is queued is called

  /** The entry is in the queue, or has been called, or its body is cancelled. */
  predicate Kept<W>(e: Entry, s: Sim<W>) {
    e in s.clock.events || e in s.trace || CanceledBody(s.clock.bodies, e.body)
  }

  predicate CanceledBody(bodies: seq<Body>, h: nat) {
    h < |bodies| && bodies[h].canceled
  }

  /** It has been called only if it had been, or was in the queue, or was not yet made when n was the number
      of insertions. */
  predicate Accounted<W>(e: Entry, s: Sim<W>, n: nat, r: Sim<W>) {
    && (e in r.trace ==> e in s.trace || e in s.clock.events || e.order >= n)
    && (e in r.clock.events ==> e in s.clock.events || e.order >= n)
    && r.clock.inserted >= n
  }

  lemma TailOf(q: seq<Entry>, e: Entry)
    requires e in q
    ensures e == q[0] || e in q[1..]
  {
  }

  /** One turn loses nothing: what it erases it has called, unless it is cancelled. And it calls nothing that
      was not in the queue. */
  lemma TurnKeeps<W(!new)>(p: Program<W>, s: Sim<W>, e: Entry)
    requires Patient(p, 0) && InOrder(s, 0) && s.clock.events != []
    ensures Kept(e, s) ==> Kept(e, Turn(p, s))
    ensures Accounted(e, s, s.clock.inserted, Turn(p, s))
  {
    var head := s.clock.events[0];
    var c := s.clock.(now := head.time);
    if e in s.clock.events {
      TailOf(s.clock.events, e);
    }
    if !c.bodies[head.body].canceled {
      HeadTimeOrderly(s.clock, 0);
      AfterCallOrderly(c, Asked(p, s), 0);
      var d := AfterCall(c, head, Asked(p, s));
      if e in s.clock.events {
        TailOf(d.events, e);
      }
      if e.body < |c.bodies| {
        RequestsKeepBody(c, Asked(p, s), e.body);
      }
    }
  }

  lemma AccountedFurther<W>(e: Entry, s: Sim<W>, t: Sim<W>, r: Sim<W>)
    requires Accounted(e, s, s.clock.inserted, t) && Accounted(e, t, t.clock.inserted, r)
    ensures Accounted(e, s, s.clock.inserted, r)
  {
  }

  lemma {:induction false} SoFarKeeps<W(!new)>(p: Program<W>, s: Sim<W>, end: int, n: nat, e: Entry)
    requires Patient(p, 0) && InOrder(s, 0)
    ensures Kept(e, s) ==> Kept(e, SoFar(p, s, end, n))
    ensures Accounted(e, s, s.clock.inserted, SoFar(p, s, end, n))
    decreases n
  {
    if n == 0 || !Continues(s.clock, end) {
    } else {
      var t := Turn(p, s);
      TurnKeeps(p, s, e);
      TurnInOrder(p, s, 0);
      SoFarKeeps(p, t, end, n - 1, e);
      AccountedFurther(e, s, t, SoFar(p, t, end, n - 1));
    }
  }

  /** Every entry due by the end of a simulation that is not stopped is called, unless its body is cancelled;
      SimulationInOrder says that it is called once, and in its turn. And of what was scheduled before,
      nothing is called but what was in the queue. */
  lemma DueIsCalled<W(!new)>(p: Program<W>, s: Sim<W>, end: int, n: nat, e: Entry)
    requires Patient(p, 0) && InOrder(s, 0) && s.clock.now <= end && Loop(p, s, end, n).Some?
    ensures var r := Loop(p, s, end, n).value;
      && (e in s.clock.events && e.time <= end && !r.clock.stopped ==>
            e in r.trace || CanceledBody(r.clock.bodies, e.body))
      && (e in r.trace && e.order < s.clock.inserted ==> e in s.trace || e in s.clock.events)
  {
    SoFarKeeps(p, s, end, n, e);
    LoopIsSoFar(p, s, end, n);
    SimulationComplete(p, s, end, n);
  }

  // ----- scheduling

  /** The body and the delay of a request to schedule something. */
  predicate Adds(r: Request) {
    r.Schedule? || r.SchedulePeriodic?
  }

  function AskedPeriod(r: Request): Option<int> {
    if r.SchedulePeriodic? then Some(r.period) else None
  }

  /** The queue holds the new body, due after the delay asked for, and the body is as asked for. */
  predicate HasNew(c: Clock, d: Clock, r: Request)
    requires Adds(r)
  {
    && Entry(c.now + r.delay, c.inserted, |c.bodies|) in d.events && |c.bodies| < |d.bodies|
    && d.bodies[|c.bodies|].code == r.code
    && d.bodies[|c.bodies|].period.Some? == AskedPeriod(r).Some?
  }

  lemma NewIsQueued(c: Clock, r: Request)
    requires Wellformed(c) && Adds(r)
    ensures HasNew(c, Applied(c, r), r)
    ensures Applied(c, r).bodies == c.bodies + [Body(r.code, AskedPeriod(r), false)]
    ensures forall e :: e in c.events ==> e in Applied(c, r).events
  {
    InsertMembers(c.events, Entry(c.now + r.delay, c.inserted, |c.bodies|));
  }

  lemma NewInRequests(c: Clock, rs: seq<Request>, k: nat)
    requires Orderly(c, 0) && k < |rs| && Adds(rs[k]) && forall r :: r in rs ==> AtLeast(r, 0)
    ensures HasNew(AppliedAll(c, rs[..k]), AppliedAll(c, rs), rs[k])
    ensures Extends(c, AppliedAll(c, rs[..k]))
  {
    var before := AppliedAll(c, rs[..k]);
    assert forall r :: r in rs[..k] ==> r in rs;
    assert forall r :: r in rs[k + 1..] ==> r in rs;
    AppliedAllOrderly(c, rs[..k], 0);
    NewIsQueued(before, rs[k]);
    AppliedOrderly(before, rs[k], 0);
    AppliedAllAround(c, rs, k);
    AppliedAllOrderly(Applied(before, rs[k]), rs[k + 1..], 0);
    RequestsKeepBody(Applied(before, rs[k]), rs[k + 1..], |before.bodies|);
  }

  lemma QueuedSurvives(c: Clock, rs: seq<Request>, e: Entry)
    requires Orderly(c, 0) && c.events != [] && c.now == c.events[0].time
    requires forall r :: r in rs ==> AtLeast(r, 0)
    requires e in AppliedAll(c, rs).events && e.order >= c.inserted
    ensures e in AfterCall(c, c.events[0], rs).events[1..]
    ensures AfterCall(c, c.events[0], rs).bodies == AppliedAll(c, rs).bodies
  {
    AfterCallOrderly(c, rs, 0);
    AppliedAllOrderly(c, rs, 0);
    var m := AppliedAll(c, rs);
    RequestsKeepNow(c, rs);
    if m.bodies[c.events[0].body].period.Some? {
      InsertMembers(m.events, Entry(m.now + m.bodies[c.events[0].body].period.value, m.inserted, c.events[0].body));
    }
    TailOf(AfterCall(c, c.events[0], rs).events, e);
  }

  lemma NewAfterCall(c: Clock, rs: seq<Request>, before: Clock, r: Request)
    requires Orderly(c, 0) && c.events != [] && c.now == c.events[0].time
    requires forall x :: x in rs ==> AtLeast(x, 0)
    requires Adds(r) && Extends(c, before) && HasNew(before, AppliedAll(c, rs), r)
    ensures var d := AfterCall(c, c.events[0], rs); HasNew(before, d.(events := d.events[1..]), r)
  {
    QueuedSurvives(c, rs, Entry(before.now + r.delay, before.inserted, |before.bodies|));
    var d := AfterCall(c, c.events[0], rs);
    NewStays(before, AppliedAll(c, rs), d.(events := d.events[1..]), r);
  }

  lemma NewStays(before: Clock, m: Clock, d: Clock, r: Request)
    requires Adds(r) && HasNew(before, m, r) && d.bodies == m.bodies
    requires Entry(before.now + r.delay, before.inserted, |before.bodies|) in d.events
    ensures HasNew(before, d, r)
  {
  }

  /** What a callback schedules, k-th of its requests, is in the queue after the turn. */
  lemma NewInCallback<W(!new)>(p: Program<W>, s: Sim<W>, k: nat)
    requires Patient(p, 0) && InOrder(s, 0) && Calls(s.clock)
    requires k < |Asked(p, s)| && Adds(Asked(p, s)[k])
    ensures HasNew(Midway(p, s, k), Turn(p, s).clock, Asked(p, s)[k])
    ensures Midway(p, s, k).now == s.clock.events[0].time
  {
    HeadTimeOrderly(s.clock, 0);
    var c := s.clock.(now := s.clock.events[0].time);
    NewInRequests(c, Asked(p, s), k);
    NewAfterCall(c, Asked(p, s), Midway(p, s, k), Asked(p, s)[k]);
  }

  lemma NewInOrder<W>(s: Sim<W>, r: Request)
    requires InOrder(s, 0) && Adds(r) && AtLeast(r, 0)
    ensures InOrder(s.(clock := Applied(s.clock, r)), 0)
  {
    AppliedOrderly(s.clock, r, 0);
  }

  /** What is scheduled is called after its delay, with the callback asked for, by a simulation that goes that
      far and is not stopped, unless it is cancelled. */
  lemma ScheduledIsCalled<W(!new)>(p: Program<W>, s: Sim<W>, request: Request, end: int, n: nat)
    requires Patient(p, 0) && InOrder(s, 0) && Adds(request) && AtLeast(request, 0)
    requires s.clock.now + request.delay <= end
    requires Loop(p, s.(clock := Applied(s.clock, request)), end, n).Some?
    ensures var c, r := s.clock, Loop(p, s.(clock := Applied(s.clock, request)), end, n).value;
      && |c.bodies| < |r.clock.bodies| && r.clock.bodies[|c.bodies|].code == request.code
      && (!r.clock.stopped ==>
            || Entry(c.now + request.delay, c.inserted, |c.bodies|) in r.trace
            || CanceledBody(r.clock.bodies, |c.bodies|))
  {
    var c, t := s.clock, s.(clock := Applied(s.clock, request));
    NewIsQueued(c, request);
    NewInOrder(s, request);
    DueIsCalled(p, t, end, n, Entry(c.now + request.delay, c.inserted, |c.bodies|));
    LoopIsSoFar(p, t, end, n);
    BodyStays(p, t, end, n, |c.bodies|);
  }

  // ----- one-shots

  lemma {:induction false} RequestsKeepTimes(c: Clock, rs: seq<Request>, h: nat)
    requires Wellformed(c) && h < |c.bodies|
    ensures TimesOf(AppliedAll(c, rs).events, h) == TimesOf(c.events, h)
    decreases rs
  {
    if rs == [] {
    } else {
      if Adds(rs[0]) {
        InsertTimes(c.events, Entry(c.now + rs[0].delay, c.inserted, |c.bodies|), h);
      }
      RequestsKeepTimes(Applied(c, rs[0]), rs[1..], h);
    }
  }

  /** The calls of h made and still queued together. */
  function AllTimes<W>(s: Sim<W>, h: nat): seq<int> {
    TimesOf(s.trace, h) + TimesOf(s.clock.events, h)
  }

  lemma CallKeepsTimes(c: Clock, rs: seq<Request>, h: nat)
    requires Orderly(c, 0) && c.events != [] && c.now == c.events[0].time && forall r :: r in rs ==> AtLeast(r, 0)
    requires h < |c.bodies| && c.bodies[h].period.None?
    ensures var d := AfterCall(c, c.events[0], rs);
      d.events[0] == c.events[0] && TimesOf(d.events, h) == TimesOf(c.events, h)
  {
    AfterCallOrderly(c, rs, 0);
    RequestsKeepTimes(c, rs, h);
    RequestsKeepBody(c, rs, h);
    RequeuedTimes(AppliedAll(c, rs), c.events[0].body, h);
  }

  lemma HeadMovesOn(trace: seq<Entry>, q: seq<Entry>, h: nat)
    requires q != []
    ensures TimesOf(trace + [q[0]], h) + TimesOf(q[1..], h) == TimesOf(trace, h) + TimesOf(q, h)
    ensures q[0].body != h ==> TimesOf(q[1..], h) == TimesOf(q, h)
  {
    TimesSnoc(trace, q[0], h);
  }

  lemma TurnKeepsTimes<W(!new)>(p: Program<W>, s: Sim<W>, h: nat)
    requires Patient(p, 0) && InOrder(s, 0) && s.clock.events != []
    requires h < |s.clock.bodies| && s.clock.bodies[h].period.None? && !s.clock.bodies[h].canceled
    ensures AllTimes(Turn(p, s), h) == AllTimes(s, h)
  {
    var head := s.clock.events[0];
    var c := s.clock.(now := head.time);
    if c.bodies[head.body].canceled {
      HeadMovesOn(s.trace, c.events, h);
    } else {
      HeadTimeOrderly(s.clock, 0);
      CallKeepsTimes(c, Asked(p, s), h);
      HeadMovesOn(s.trace, AfterCall(c, head, Asked(p, s)).events, h);
    }
  }

  lemma RequeuedTimes(m: Clock, body: nat, h: nat)
    requires Wellformed(m) && body < |m.bodies| && h < |m.bodies| && m.bodies[h].period.None?
    ensures TimesOf(Requeued(m, body).events, h) == TimesOf(m.events, h)
  {
    if m.bodies[body].period.Some? {
      InsertTimes(m.events, Entry(m.now + m.bodies[body].period.value, m.inserted, body), h);
    }
  }

  /** A body without a period is called as often as it was queued, at those times, and never again: what has
      been called of it and what is queued stay the same together, until it is cancelled, and then no call
      is added. */
  lemma {:induction false} OneShotOnce<W(!new)>(p: Program<W>, s: Sim<W>, end: int, n: nat, h: nat)
    requires Patient(p, 0) && InOrder(s, 0) && h < |s.clock.bodies| && s.clock.bodies[h].period.None?
    ensures var r := SoFar(p, s, end, n);
      && h < |r.clock.bodies| && TimesOf(r.trace, h) <= AllTimes(s, h)
      && (!r.clock.bodies[h].canceled ==> AllTimes(r, h) == AllTimes(s, h))
    decreases n
  {
    if n == 0 || !Continues(s.clock, end) {
    } else if s.clock.bodies[h].canceled {
      CancelledNeverCalled(p, s, end, n, h);
      SameTimes(s.trace, SoFar(p, s, end, n).trace, h);
    } else {
      var t := Turn(p, s);
      TurnKeepsTimes(p, s, h);
      TurnInOrder(p, s, 0);
      BodyStays(p, s, end, 1, h);
      assert SoFar(p, s, end, 1) == SoFar(p, t, end, 0) == t;
      OneShotOnce(p, t, end, n - 1, h);
    }
  }

  lemma {:induction false} SameTimes(a: seq<Entry>, b: seq<Entry>, h: nat)
    requires a <= b && forall i :: |a| <= i < |b| ==> b[i].body != h
    ensures TimesOf(b, h) == TimesOf(a, h)
    decreases b
  {
    if a == b {
    } else {
      var front := b[..|b| - 1];
      SameTimes(a, front, h);
      TimesSnoc(front, b[|b| - 1], h);
      assert b == front + [b[|b| - 1]];
    }
  }

  // ----- periods

  /** The period last asked for of h, or the one it has. */
  function LastPeriod(rs: seq<Request>, h: nat, period: int): int {
    if rs == [] then period
    else
      var last := rs[|rs| - 1];
      if last.ChangePeriod? && last.handle == h then last.newPeriod else LastPeriod(rs[..|rs| - 1], h, period)
  }

  lemma {:induction false} PeriodAfter(c: Clock, rs: seq<Request>, h: nat)
    requires Wellformed(c) && h < |c.bodies| && c.bodies[h].period.Some?
    ensures AppliedAll(c, rs).bodies[h].period == Some(LastPeriod(rs, h, c.bodies[h].period.value))
    decreases rs
  {
    if rs == [] {
    } else {
      var before, last := rs[..|rs| - 1], rs[|rs| - 1];
      PeriodAfter(c, before, h);
      RequestsKeepBody(c, before, h);
      AppliedAllAround(c, rs, |rs| - 1);
      assert rs[|rs|..] == [];
    }
  }

  /** A periodic body is due again one period after its call: the period last asked for, if its own callback
      has changed it. */
  lemma NextCall<W(!new)>(p: Program<W>, s: Sim<W>)
    requires Patient(p, 0) && InOrder(s, 0) && Calls(s.clock)
    requires s.clock.bodies[s.clock.events[0].body].period.Some?
    ensures var head, period := s.clock.events[0], s.clock.bodies[s.clock.events[0].body].period.value;
      exists e :: e in Turn(p, s).clock.events && e.body == head.body && e.order >= s.clock.inserted
                  && e.time == head.time + LastPeriod(Asked(p, s), head.body, period)
  {
    var head := s.clock.events[0];
    var c := s.clock.(now := head.time);
    HeadTimeOrderly(s.clock, 0);
    PeriodAfter(c, Asked(p, s), head.body);
    RequestsKeepNow(c, Asked(p, s));
    AppliedAllOrderly(c, Asked(p, s), 0);
    AfterCallOrderly(c, Asked(p, s), 0);
    AgainIsQueued(AppliedAll(c, Asked(p, s)), head);
  }

  lemma AgainIsQueued(m: Clock, head: Entry)
    requires Wellformed(m) && head.body < |m.bodies| && m.bodies[head.body].period.Some?
    requires m.inserted > head.order
    ensures var d := Requeued(m, head.body);
      var again := Entry(m.now + m.bodies[head.body].period.value, m.inserted, head.body);
      d.events != [] && (d.events[0] == head ==> again in d.events[1..])
  {
    var again := Entry(m.now + m.bodies[head.body].period.value, m.inserted, head.body);
    InsertMembers(m.events, again);
    TailOf(Insert(m.events, again), again);
  }

  /** Changing the period of a queued body between two simulations: its next call is at the time already set,
      and all further calls are the new period apart. */
  lemma ChangedPeriodRuns<W(!new)>(p: Program<W>, s: Sim<W>, end: int, h: nat, period: int)
    requires Inert(p) && PeriodicLoad(s.clock) && s.clock.now <= end
    requires |TimesOf(s.clock.events, h)| == 1 && period >= 1
    ensures var c := Applied(s.clock, ChangePeriod(h, period));
      && PeriodicLoad(c)
      && var r := Loop(p, s.(clock := c), end, Total(c.events, c.bodies, end));
      && r.Some?
      && TimesOf(r.value.trace, h)
         == TimesOf(s.trace, h) + Instants(TimesOf(s.clock.events, h)[0], period, end)
  {
    var c := Applied(s.clock, ChangePeriod(h, period));
    QueuedBody(s.clock, h);
    PeriodicClosedForm(p, s.(clock := c), end, h);
  }

  lemma QueuedBody(c: Clock, h: nat)
    requires PeriodicLoad(c) && TimesOf(c.events, h) != []
    ensures h < |c.bodies| && c.bodies[h].period.Some?
  {
    var i := FirstOf(c.events, h);
  }

  lemma {:induction false} FirstOf(q: seq<Entry>, h: nat) returns (i: nat)
    requires TimesOf(q, h) != []
    ensures i < |q| && q[i].body == h
  {
    if q[0].body == h {
      i := 0;
    } else {
      i := FirstOf(q[1..], h);
      i := i + 1;
    }
  }

  // ----- periodic loads from the first request on

  const EMPTY := Clock(0, [], [], 0, false)

  predicate AllPeriodic(rs: seq<Request>) {
    forall i :: 0 <= i < |rs| ==> PeriodicRequest(rs[i])
  }

  predicate PeriodicRequest(r: Request) {
    r.SchedulePeriodic? && r.delay >= 0 && r.period >= 1
  }

  /** How many calls these requests make for by `end`. */
  function CallsBy(rs: seq<Request>, end: int): nat
    requires AllPeriodic(rs)
  {
    if rs == [] then 0
    else
      var last := rs[|rs| - 1];
      CallsBy(rs[..|rs| - 1], end) + Ticks(last.delay, last.period, end)
  }

  /** The clock of a new simulator after these requests. */
  predicate Loaded(c: Clock, rs: seq<Request>) {
    && AllPeriodic(rs) && PeriodicLoad(c) && c.now == 0 && |c.bodies| == |rs|
    && forall i :: 0 <= i < |rs| ==>
         && c.bodies[i] == Body(rs[i].code, Some(rs[i].period), false)
         && TimesOf(c.events, i) == [rs[i].delay]
  }

  lemma {:induction false} TotalMoreBodies(q: seq<Entry>, bodies: seq<Body>, b: Body, end: int)
    requires BodiesBelow(q, |bodies|) && PeriodsAtLeast(bodies + [b], 1)
    ensures PeriodsAtLeast(bodies, 1) && Total(q, bodies + [b], end) == Total(q, bodies, end)
  {
    assert forall i :: 0 <= i < |bodies| ==> (bodies + [b])[i] == bodies[i];
    if q == [] {
    } else {
      TotalMoreBodies(q[1..], bodies, b, end);
    }
  }

  lemma {:induction false} NoEntries(q: seq<Entry>, h: nat)
    requires BodiesBelow(q, h)
    ensures TimesOf(q, h) == []
  {
    if q == [] {
    } else {
      NoEntries(q[1..], h);
    }
  }

  lemma OneMoreLoad(c: Clock, r: Request)
    requires PeriodicLoad(c) && c.now == 0 && PeriodicRequest(r)
    ensures PeriodicLoad(Applied(c, r))
  {
    var e := Entry(r.delay, c.inserted, |c.bodies|);
    var more := c.(bodies := c.bodies + [Body(r.code, Some(r.period), false)]);
    PushOrderly(more, r.delay, |c.bodies|, 1);
    InsertMembers(c.events, e);
    var d := Applied(c, r);
    forall x | x in d.events ensures !d.bodies[x.body].canceled && d.bodies[x.body].period.Some? {
      assert x == e || x in c.events;
    }
  }

  lemma OneMoreTotal(c: Clock, r: Request, end: int)
    requires PeriodicLoad(c) && c.now == 0 && PeriodicRequest(r)
    ensures PeriodsAtLeast(Applied(c, r).bodies, 1)
    ensures Total(Applied(c, r).events, Applied(c, r).bodies, end)
         == Total(c.events, c.bodies, end) + Ticks(r.delay, r.period, end)
  {
    var b := Body(r.code, Some(r.period), false);
    TotalMoreBodies(c.events, c.bodies, b, end);
    InsertTotal(c.events, Entry(r.delay, c.inserted, |c.bodies|), c.bodies + [b], end);
  }

  lemma OneMoreLoaded(c: Clock, rs: seq<Request>, r: Request)
    requires Loaded(c, rs) && PeriodicRequest(r)
    ensures Loaded(Applied(c, r), rs + [r])
  {
    OneMoreLoad(c, r);
    NoEntries(c.events, |c.bodies|);
    forall i | 0 <= i < |rs + [r]| ensures TimesOf(Applied(c, r).events, i) == [(rs + [r])[i].delay] {
      InsertTimes(c.events, Entry(r.delay, c.inserted, |c.bodies|), i);
    }
  }

  lemma {:induction false} RequestsAreLoaded(rs: seq<Request>, end: int)
    requires AllPeriodic(rs)
    ensures var c := AppliedAll(EMPTY, rs); Loaded(c, rs) && Total(c.events, c.bodies, end) == CallsBy(rs, end)
    decreases rs
  {
    if rs == [] {
    } else {
      var before, last := rs[..|rs| - 1], rs[|rs| - 1];
      RequestsAreLoaded(before, end);
      assert rs == before + [last] && rs[|rs|..] == [];
      AppliedAllAround(EMPTY, rs, |rs| - 1);
      OneMoreLoaded(AppliedAll(EMPTY, before), before, last);
      OneMoreTotal(AppliedAll(EMPTY, before), last, end);
    }
  }

  /** From the requests on: any periodic events, scheduled on a new simulator with inert callbacks, are called
      exactly at their delays and every period after that up to the end, each with the callback asked for,
      and there are as many calls as these instants. */
  lemma ScheduledLoadRuns<W(!new)>(p: Program<W>, world: W, rs: seq<Request>, end: nat, i: nat)
    requires Inert(p) && AllPeriodic(rs) && i < |rs|
    ensures var r := Loop(p, Sim(AppliedAll(EMPTY, rs), world, []), end, CallsBy(rs, end));
      && r.Some? && |r.value.trace| == CallsBy(rs, end)
      && TimesOf(r.value.trace, i) == Instants(rs[i].delay, rs[i].period, end)
      && i < |r.value.clock.bodies| && r.value.clock.bodies[i].code == rs[i].code
  {
    var s := Sim(AppliedAll(EMPTY, rs), world, []);
    RequestsAreLoaded(rs, end);
    PeriodicClosedForm(p, s, end, i);
    LoopIsSoFar(p, s, end, CallsBy(rs, end));
    BodyStays(p, s, end, CallsBy(rs, end), i);
    assert [] + Instants(rs[i].delay, rs[i].period, end) == Instants(rs[i].delay, rs[i].period, end);
  }
}
