// What `MicroSimulator.simulate` promises, over every program of callbacks and every call that
// returns: splitting, order, cancellation, termination and the closed form for periodic loads.

module SimulationTheorems {
  import opened Options
  import opened EventQueue
  import opened MicroSimulator

  // ----- splitting a simulation

  lemma {:induction false} MoreFuel<W>(p: Program<W>, s: Sim<W>, end: int, n: nat, m: nat)
    requires Wellformed(s.clock) && n <= m
    requires Loop(p, s, end, n).Some?
    ensures Loop(p, s, end, m) == Loop(p, s, end, n)
    decreases n
  {
    if !Continues(s.clock, end) {
    } else {
      MoreFuel(p, Turn(p, s), end, n - 1, m - 1);
    }
  }

  /** A call of `simulate` that returns leaves the loop in the state it has reached by then. */
  lemma {:induction false} LoopIsSoFar<W>(p: Program<W>, s: Sim<W>, end: int, n: nat)
    requires Wellformed(s.clock)
    ensures Loop(p, s, end, n) ==
      if Continues(SoFar(p, s, end, n).clock, end) then None else Some(Leave(SoFar(p, s, end, n), end))
    decreases n
  {
    if n == 0 || !Continues(s.clock, end) {
    } else {
      LoopIsSoFar(p, Turn(p, s), end, n - 1);
    }
  }

  /** What the first part of a split simulation leaves for the second. */
  ghost predicate Hands<W(!new)>(p: Program<W>, s: Sim<W>, mid: int, end: int, n: nat)
    requires Wellformed(s.clock)
  {
    var part, whole := Loop(p, s, mid, n), Loop(p, s, end, n);
    && part.Some? && whole.Some?
    && (!part.value.clock.stopped ==>
          part.value.clock.now == mid && Loop(p, part.value, end, n) == whole)
    && (part.value.clock.stopped ==> ApartFromNow(whole.value, part.value))
  }

  lemma {:induction false} LoopPassesThrough<W(!new)>(p: Program<W>, s: Sim<W>, mid: int, end: int, n: nat)
    requires Wellformed(s.clock) && s.clock.now <= mid <= end
    requires Loop(p, s, end, n).Some?
    ensures Hands(p, s, mid, end, n)
    decreases n
  {
    if !Continues(s.clock, mid) {
      if Continues(s.clock, end) {
        TurnIgnoresNow(p, s, mid);
      }
    } else {
      TurnSetsNow(p, s);
      var t := Turn(p, s);
      LoopPassesThrough(p, t, mid, end, n - 1);
      HandsOneTurn(p, s, mid, end, n);
    }
  }

  lemma HandsOneTurn<W(!new)>(p: Program<W>, s: Sim<W>, mid: int, end: int, n: nat)
    requires Wellformed(s.clock) && mid <= end && Continues(s.clock, mid) && n > 0
    requires Hands(p, Turn(p, s), mid, end, n - 1)
    ensures Hands(p, s, mid, end, n)
  {
    var t := Turn(p, s);
    assert Loop(p, s, mid, n) == Loop(p, t, mid, n - 1);
    assert Loop(p, s, end, n) == Loop(p, t, end, n - 1);
    var part := Loop(p, t, mid, n - 1).value;
    if !part.clock.stopped {
      MoreFuel(p, part, end, n - 1, n);
    }
  }

  lemma TurnIgnoresNow<W>(p: Program<W>, s: Sim<W>, now: int)
    requires Wellformed(s.clock) && s.clock.events != []
    ensures Turn(p, s.(clock := s.clock.(now := now))) == Turn(p, s)
  {
    var t := s.(clock := s.clock.(now := now));
    var head := s.clock.events[0];
    assert t.clock.(now := head.time) == s.clock.(now := head.time);
  }

  lemma TurnSetsNow<W>(p: Program<W>, s: Sim<W>)
    requires Wellformed(s.clock) && s.clock.events != []
    ensures Turn(p, s).clock.now == s.clock.events[0].time
  {
    var head := s.clock.events[0];
    if !s.clock.bodies[head.body].canceled {
      var c := s.clock.(now := head.time);
      RequestsKeepNow(c, p(s.world, c, head.body).1);
    }
  }

  lemma {:induction false} RequestsKeepNow(c: Clock, rs: seq<Request>)
    requires Wellformed(c)
    ensures AppliedAll(c, rs).now == c.now
    decreases rs
  {
    if rs == [] {
    } else {
      RequestsKeepNow(Applied(c, rs[0]), rs[1..]);
    }
  }

  /** Equal in everything but the clock reading. */
  predicate ApartFromNow<W(==)>(a: Sim<W>, b: Sim<W>) {
    a.(clock := a.clock.(now := b.clock.now)) == b
  }

  /** A stopped simulation makes no further call: a later one changes at most the clock. */
  lemma StoppedRests<W(!new)>(p: Program<W>, s: Sim<W>, end: int, n: nat)
    requires Wellformed(s.clock) && s.clock.stopped
    ensures Loop(p, s, end, n) == Some(Leave(s, end))
    ensures ApartFromNow(s, Leave(s, end))
  {
  }

  /** Simulating up to `mid` and then up to `end` makes the calls of simulating up to `end` at once and
      leaves the same queue, bodies and shared state, whatever the callbacks schedule, cancel, re-time or
      stop. Unless the first part was stopped it ends at `mid` and the second ends as the whole does; if it
      was, the second part does nothing, and only the clock differs. The number of calls is the growth of
      the trace, so the two counts add up. */
  lemma SplitSimulation<W(!new)>(p: Program<W>, s: Sim<W>, mid: int, end: int, n: nat, whole: Sim<W>)
    returns (first: Sim<W>)
    requires Wellformed(s.clock) && s.clock.now <= mid <= end && Loop(p, s, end, n) == Some(whole)
    ensures Loop(p, s, mid, n) == Some(first) && Wellformed(first.clock)
    ensures !first.clock.stopped ==> first.clock.now == mid && Loop(p, first, end, n) == Some(whole)
    ensures first.clock.stopped ==>
      var last := first.clock.now + (end - mid);
      ApartFromNow(whole, first) && Loop(p, first, last, n) == Some(Leave(first, last))
  {
    LoopPassesThrough(p, s, mid, end, n);
    first := Loop(p, s, mid, n).value;
    if first.clock.stopped {
      StoppedRests(p, first, first.clock.now + (end - mid), n);
    }
  }

  /** And if both halves return, so does the whole. */
  lemma {:induction false} JoinSimulations<W>(p: Program<W>, s: Sim<W>, mid: int, end: int, n: nat, m: nat)
    requires Wellformed(s.clock) && s.clock.now <= mid <= end
    requires Loop(p, s, mid, n).Some? && Loop(p, Loop(p, s, mid, n).value, end, m).Some?
    ensures Loop(p, s, end, n + m).Some?
    decreases n
  {
    if !Continues(s.clock, mid) {
      RestOfJoin(p, s, mid, end, n, m);
    } else {
      var t := Turn(p, s);
      TurnSetsNow(p, s);
      assert Loop(p, t, mid, n - 1) == Loop(p, s, mid, n);
      JoinSimulations(p, t, mid, end, n - 1, m);
    }
  }

  lemma RestOfJoin<W>(p: Program<W>, s: Sim<W>, mid: int, end: int, n: nat, m: nat)
    requires Wellformed(s.clock) && s.clock.now <= mid <= end && !Continues(s.clock, mid)
    requires Loop(p, Leave(s, mid), end, m).Some?
    ensures Loop(p, s, end, n + m).Some?
  {
    if Continues(s.clock, end) {
      TurnIgnoresNow(p, s, mid);
      MoreFuel(p, Turn(p, s), end, m - 1, n + m - 1);
    }
  }

  // ----- order and completeness

  /** Every delay and period the request carries is at least `tick`. */
  predicate AtLeast(r: Request, tick: int) {
    match r
    case Schedule(_, delay) => delay >= tick
    case SchedulePeriodic(_, delay, period) => delay >= tick && period >= tick
    case ChangePeriod(_, period) => period >= tick
    case _ => true
  }

  ghost predicate Patient<W(!new)>(p: Program<W>, tick: int) {
    forall w, c, b, r :: r in p(w, c, b).1 ==> AtLeast(r, tick)
  }

  predicate PeriodsAtLeast(bodies: seq<Body>, tick: int) {
    forall i :: 0 <= i < |bodies| ==> bodies[i].period.Some? ==> bodies[i].period.value >= tick
  }

  /** A queue in order: sorted, nothing overdue, and every period at least `tick`. */
  predicate Orderly(c: Clock, tick: int) {
    && Wellformed(c)
    && Sorted(c.events)
    && (forall e :: e in c.events ==> e.order < c.inserted && e.time >= c.now)
    && PeriodsAtLeast(c.bodies, tick)
  }

  /** d continues c at the same instant: what is new in its queue came later. */
  predicate Extends(c: Clock, d: Clock) {
    && d.now == c.now && d.inserted >= c.inserted && |d.bodies| >= |c.bodies|
    && (forall e :: e in c.events ==> e in d.events)
    && (forall e :: e in d.events ==> e in c.events || (e.order >= c.inserted && e.time >= c.now))
  }

  lemma PushOrderly(c: Clock, time: int, body: nat, tick: int)
    requires Orderly(c, tick) && body < |c.bodies| && time >= c.now
    ensures Orderly(Push(c, time, body), tick) && Extends(c, Push(c, time, body))
  {
    var e := Entry(time, c.inserted, body);
    InsertMembers(c.events, e);
    InsertSorted(c.events, e);
  }

  lemma AppliedOrderly(c: Clock, r: Request, tick: nat)
    requires Orderly(c, tick) && AtLeast(r, tick)
    ensures Orderly(Applied(c, r), tick) && Extends(c, Applied(c, r))
  {
    match r
    case Schedule(code, delay) =>
      PushOrderly(c.(bodies := c.bodies + [Body(code, None, false)]), c.now + delay, |c.bodies|, tick);
    case SchedulePeriodic(code, delay, period) =>
      PushOrderly(c.(bodies := c.bodies + [Body(code, Some(period), false)]), c.now + delay, |c.bodies|, tick);
    case _ =>
  }

  lemma {:induction false} AppliedAllOrderly(c: Clock, rs: seq<Request>, tick: nat)
    requires Orderly(c, tick) && forall r :: r in rs ==> AtLeast(r, tick)
    ensures Orderly(AppliedAll(c, rs), tick) && Extends(c, AppliedAll(c, rs))
    decreases rs
  {
    if rs == [] {
    } else {
      AppliedOrderly(c, rs[0], tick);
      AppliedAllOrderly(Applied(c, rs[0]), rs[1..], tick);
    }
  }

  lemma EarliestIsHead(q: seq<Entry>, head: Entry)
    requires Sorted(q) && head in q
    requires forall e :: e in q ==> e == head || Before(head, e)
    ensures q[0] == head
  {
    var i :| 0 <= i < |q| && q[i] == head;
    assert i > 0 ==> !Before(q[i], q[0]);
    assert q[0] in q;
  }

  /** After a call with patient requests the queue is in order and the entry called still heads it. */
  lemma AfterCallOrderly(c: Clock, rs: seq<Request>, tick: nat)
    requires Orderly(c, tick) && c.events != [] && c.now == c.events[0].time
    requires forall r :: r in rs ==> AtLeast(r, tick)
    ensures var d := AfterCall(c, c.events[0], rs);
      Orderly(d, tick) && Extends(c, d) && d.events[0] == c.events[0]
  {
    var head := c.events[0];
    assert c == c.(now := head.time);
    AppliedAllOrderly(c, rs, tick);
    RequeuedOrderly(c, AppliedAll(c, rs), head.body, tick);
    HeadStays(c, AfterCall(c, head, rs), tick);
  }

  lemma RequeuedOrderly(c: Clock, m: Clock, body: nat, tick: nat)
    requires Orderly(m, tick) && Extends(c, m) && body < |m.bodies|
    ensures Orderly(Requeued(m, body), tick) && Extends(c, Requeued(m, body))
  {
    if m.bodies[body].period.Some? {
      PushOrderly(m, m.now + m.bodies[body].period.value, body, tick);
    }
  }

  lemma HeadStays(c: Clock, d: Clock, tick: nat)
    requires Orderly(c, tick) && Orderly(d, tick) && Extends(c, d)
    requires c.events != [] && c.now == c.events[0].time
    ensures d.events != [] && d.events[0] == c.events[0]
  {
    var head := c.events[0];
    forall e | e in d.events ensures e == head || Before(head, e) {
      assert e in c.events ==> e == head || Before(head, e);
    }
    EarliestIsHead(d.events, head);
  }

  /** The calls in the trace are in order and precede everything still queued. */
  predicate Passed(trace: seq<Entry>, c: Clock) {
    && Sorted(trace)
    && (forall t :: t in trace ==> t.order < c.inserted && t.time <= c.now)
    && (forall t, e :: t in trace && e in c.events ==> Before(t, e))
  }

  predicate InOrder<W>(s: Sim<W>, tick: int) {
    Orderly(s.clock, tick) && Passed(s.trace, s.clock)
  }

  lemma HeadTimeOrderly(c: Clock, tick: int)
    requires Orderly(c, tick) && c.events != []
    ensures Orderly(c.(now := c.events[0].time), tick)
  {
    forall e | e in c.events ensures e.time >= c.events[0].time {
      assert e == c.events[0] || Before(c.events[0], e);
    }
  }

  /** Erasing the head of an orderly queue: it precedes the rest. */
  lemma TailOrderly(d: Clock, tick: int)
    requires Orderly(d, tick) && d.events != []
    ensures Orderly(d.(events := d.events[1..]), tick)
    ensures forall e :: e in d.events[1..] ==> e in d.events && Before(d.events[0], e)
  {
    forall e | e in d.events[1..] ensures Before(d.events[0], e) {
      var i :| 0 <= i < |d.events[1..]| && d.events[1..][i] == e;
      assert d.events[i + 1] == e;
    }
  }

  /** Calling the head and erasing it passes it on from the queue to the trace. */
  lemma HeadPasses(trace: seq<Entry>, c: Clock, d: Clock, tick: int)
    requires Orderly(c, tick) && Passed(trace, c) && c.events != [] && c.now == c.events[0].time
    requires Orderly(d, tick) && Extends(c, d) && d.events[0] == c.events[0]
    ensures Passed(trace + [c.events[0]], d.(events := d.events[1..]))
  {
    var head := c.events[0];
    TailOrderly(d, tick);
    forall t, e | t in trace + [head] && e in d.events[1..] ensures Before(t, e) {
      assert t in trace || t == head;
    }
  }

  lemma TurnInOrder<W(!new)>(p: Program<W>, s: Sim<W>, tick: nat)
    requires Patient(p, tick) && InOrder(s, tick) && s.clock.events != []
    ensures InOrder(Turn(p, s), tick)
    ensures Turn(p, s).clock.now >= s.clock.now
  {
    var head := s.clock.events[0];
    var c := s.clock.(now := head.time);
    HeadTimeOrderly(s.clock, tick);
    if c.bodies[head.body].canceled {
      TailOrderly(c, tick);
    } else {
      var rs := p(s.world, c, head.body).1;
      AfterCallOrderly(c, rs, tick);
      HeadPasses(s.trace, c, AfterCall(c, head, rs), tick);
      TailOrderly(AfterCall(c, head, rs), tick);
      TurnSetsNow(p, s);
    }
  }

  /** Callbacks that ask for no negative delay are called in order of time, first come first served
      among equal times, and the clock never goes back, after any number of turns, whether or not the
      simulation ever returns. */
  lemma {:induction false} SimulationInOrder<W(!new)>(p: Program<W>, s: Sim<W>, end: int, n: nat)
    requires Patient(p, 0) && InOrder(s, 0) && s.clock.now <= end
    ensures var r := SoFar(p, s, end, n);
      InOrder(r, 0) && s.trace <= r.trace && s.clock.now <= r.clock.now <= end
    decreases n
  {
    if n == 0 || !Continues(s.clock, end) {
    } else {
      TurnInOrder(p, s, 0);
      TurnSetsNow(p, s);
      SimulationInOrder(p, Turn(p, s), end, n - 1);
    }
  }

  /** And a call that returns without having been stopped ends exactly at its end time, with everything left
      strictly later. */
  lemma SimulationComplete<W(!new)>(p: Program<W>, s: Sim<W>, end: int, n: nat)
    requires Patient(p, 0) && InOrder(s, 0) && s.clock.now <= end
    requires Loop(p, s, end, n).Some?
    ensures var r := Loop(p, s, end, n).value;
      && InOrder(r, 0) && s.trace <= r.trace && s.clock.now <= r.clock.now <= end
      && (!r.clock.stopped ==>
            r.clock.now == end && forall e :: e in r.clock.events ==> e.time > end)
  {
    var r := SoFar(p, s, end, n);
    SimulationInOrder(p, s, end, n);
    LoopIsSoFar(p, s, end, n);
    if !Due(r.clock, end) {
      forall e | e in r.clock.events ensures e.time > end {
        assert e == r.clock.events[0] || Before(r.clock.events[0], e);
      }
    }
  }

  // ----- the entry erased after a call

  /** The delay a request adds to the present, when it adds an event. */
  function Delay(r: Request): int {
    match r
    case Schedule(_, delay) => delay
    case SchedulePeriodic(_, delay, _) => delay
    case _ => 0
  }

  lemma HeadOnlyGetsEarlier(c: Clock, r: Request)
    requires Wellformed(c) && c.events != []
    ensures var h := Applied(c, r).events[0];
      && (c.events[0].time <= c.now + Delay(r) ==> h == c.events[0])
      && (c.now + Delay(r) < c.events[0].time ==> h.time < c.events[0].time || !(r.Schedule? || r.SchedulePeriodic?))
  {
  }

  lemma {:induction false} HeadAfterRequests(c: Clock, rs: seq<Request>)
    requires Wellformed(c) && c.events != []
    ensures AppliedAll(c, rs).events[0].time <= c.events[0].time
    ensures c.events[0].time == c.now ==>
      (AppliedAll(c, rs).events[0].time == c.now <==> forall r :: r in rs ==> Delay(r) >= 0)
    ensures c.events[0].time == c.now && (forall r :: r in rs ==> Delay(r) >= 0) ==>
      AppliedAll(c, rs).events[0] == c.events[0]
    decreases rs
  {
    if rs == [] {
    } else {
      var d := Applied(c, rs[0]);
      HeadOnlyGetsEarlier(c, rs[0]);
      HeadAfterRequests(d, rs[1..]);
      assert forall r :: r in rs <==> r == rs[0] || r in rs[1..];
      if c.events[0].time == c.now && Delay(rs[0]) < 0 {
        assert d.events[0].time < c.now && rs[0] in rs;
      }
    }
  }

  /** `events_.erase(events_.begin())` erases the entry whose body was just called if and only if no
      delay asked for during the call is negative and neither is the body's period. */
  lemma ErasesWhatItCalled(c: Clock, rs: seq<Request>)
    requires Wellformed(c) && c.events != [] && c.now == c.events[0].time
    ensures AfterCall(c, c.events[0], rs).events[0] == c.events[0]
      <==> && (forall r :: r in rs ==> Delay(r) >= 0)
           && (var period := AppliedAll(c, rs).bodies[c.events[0].body].period;
               period.Some? ==> period.value >= 0)
  {
    HeadAfterRequests(c, rs);
    RequestsKeepNow(c, rs);
  }

  /** A one-shot whose callback schedules something five ticks in the past. */
  function Hasty(w: int, c: Clock, body: nat): (int, seq<Request>) {
    (w, if body == 0 then [Schedule(1, -5)] else [])
  }

  /** So a negative delay makes the simulator erase the new entry and call the one-shot again: a new
      simulator, one event scheduled ten ticks ahead, two turns. */
  lemma NegativeDelayRepeatsOneShot()
    ensures var empty := Clock(0, [], [], 0, false);
      var s := Sim(Applied(empty, Schedule(0, 10)), 0, []);
      && s.clock.events == [Entry(10, 0, 0)]
      && Turn(Hasty, s).clock.events != []
      && Turn(Hasty, Turn(Hasty, s)).trace == [Entry(10, 0, 0), Entry(10, 0, 0)]
  {
    var c := Applied(Clock(0, [], [], 0, false), Schedule(0, 10));
    assert c.events == [Entry(10, 0, 0)] && c.bodies == [] + [Body(0, None, false)];
    var s := Sim(c, 0, []);
    OneShotStays(s, Body(0, None, false));
    var t := Turn(Hasty, s);
    OneShotStays(t, Body(0, None, false));
  }

  lemma OneShotStays(s: Sim<int>, b: Body)
    requires s.clock.events == [Entry(10, 0, 0)]
    requires |s.clock.bodies| > 0 && s.clock.bodies[0] == Body(0, None, false)
    ensures var t := Turn(Hasty, s);
      && t.clock.events == [Entry(10, 0, 0)]
      && |t.clock.bodies| > 0 && t.clock.bodies[0] == Body(0, None, false)
      && t.trace == s.trace + [Entry(10, 0, 0)]
  {
    var c := s.clock.(now := 10);
    var d := Applied(c, Schedule(1, -5));
    assert d.events == [Entry(5, c.inserted, |c.bodies|), Entry(10, 0, 0)];
    assert AppliedAll(c, [Schedule(1, -5)]) == AppliedAll(d, []);
  }

  // ----- cancellation

  lemma AppliedKeepsCanceled(c: Clock, rs: seq<Request>, h: nat)
    requires Wellformed(c) && h < |c.bodies| && c.bodies[h].canceled
    ensures AppliedAll(c, rs).bodies[h].canceled
    decreases rs
  {
    if rs == [] {
    } else {
      AppliedKeepsCanceled(Applied(c, rs[0]), rs[1..], h);
    }
  }

  /** Once cancelled, a body is never called again, in this simulation or any later one, after any number of
      turns: cancelling is for good and no call of it is ever added to the trace. */
  lemma {:induction false} CancelledNeverCalled<W>(p: Program<W>, s: Sim<W>, end: int, n: nat, h: nat)
    requires Wellformed(s.clock) && h < |s.clock.bodies| && s.clock.bodies[h].canceled
    ensures var r := SoFar(p, s, end, n);
      && h < |r.clock.bodies| && r.clock.bodies[h].canceled
      && s.trace <= r.trace
      && forall i :: |s.trace| <= i < |r.trace| ==> r.trace[i].body != h
    decreases n
  {
    if n == 0 || !Continues(s.clock, end) {
    } else {
      var head := s.clock.events[0];
      var c := s.clock.(now := head.time);
      AppliedKeepsCanceled(c, p(s.world, c, head.body).1, h);
      CancelledNeverCalled(p, Turn(p, s), end, n - 1, h);
    }
  }

  /** In particular by a call of `simulate` that returns, and it is then still cancelled for the next. */
  lemma CancelledStaysSo<W>(p: Program<W>, s: Sim<W>, end: int, n: nat, h: nat)
    requires Wellformed(s.clock) && h < |s.clock.bodies| && s.clock.bodies[h].canceled
    requires Loop(p, s, end, n).Some?
    ensures var r := Loop(p, s, end, n).value;
      && h < |r.clock.bodies| && r.clock.bodies[h].canceled
      && s.trace <= r.trace
      && forall i :: |s.trace| <= i < |r.trace| ==> r.trace[i].body != h
  {
    LoopIsSoFar(p, s, end, n);
    CancelledNeverCalled(p, s, end, n, h);
  }

  // ----- termination

  function Power(base: nat, n: nat): nat {
    if n == 0 then 1 else base * Power(base, n - 1)
  }

  lemma {:induction false} PowerGrows(base: nat, m: nat, n: nat)
    requires base >= 1 && m <= n
    ensures 1 <= Power(base, m) <= Power(base, n)
    decreases n
  {
    if n == 0 {
    } else if m == n {
      PowerGrows(base, m - 1, n - 1);
      assert 1 <= base * Power(base, n - 1);
    } else {
      PowerGrows(base, m, n - 1);
      assert Power(base, n - 1) <= base * Power(base, n - 1);
    }
  }

  function EntryWeight(e: Entry, end: int, base: nat): nat {
    if e.time > end then 0 else Power(base, end - e.time + 1)
  }

  function Weight(q: seq<Entry>, end: int, base: nat): nat {
    if q == [] then 0 else EntryWeight(q[0], end, base) + Weight(q[1..], end, base)
  }

  lemma {:induction false} InsertWeight(q: seq<Entry>, e: Entry, end: int, base: nat)
    ensures Weight(Insert(q, e), end, base) == Weight(q, end, base) + EntryWeight(e, end, base)
  {
    if q == [] || e.time < q[0].time {
    } else {
      InsertWeight(q[1..], e, end, base);
    }
  }

  lemma LaterWeighsLess(e: Entry, now: int, end: int, base: nat)
    requires now < e.time && now <= end && base >= 1
    ensures EntryWeight(e, end, base) <= Power(base, end - now)
  {
    if e.time <= end {
      PowerGrows(base, end - e.time + 1, end - now);
    }
  }

  /** How many events a list of requests schedules. */
  function Schedules(rs: seq<Request>): nat {
    if rs == [] then 0
    else (if rs[0].Schedule? || rs[0].SchedulePeriodic? then 1 else 0) + Schedules(rs[1..])
  }

  predicate AddsEvent(r: Request) {
    r.Schedule? || r.SchedulePeriodic?
  }

  lemma RequestWeight(c: Clock, r: Request, end: int, base: nat)
    requires Wellformed(c) && c.now <= end && base >= 1 && AtLeast(r, 1)
    ensures Applied(c, r).now == c.now
    ensures Weight(Applied(c, r).events, end, base)
         <= Weight(c.events, end, base) + (if AddsEvent(r) then Power(base, end - c.now) else 0)
  {
    if AddsEvent(r) {
      var e := Entry(c.now + r.delay, c.inserted, |c.bodies|);
      InsertWeight(c.events, e, end, base);
      LaterWeighsLess(e, c.now, end, base);
    }
  }

  lemma OneMore(n: nat, unit: nat)
    ensures (1 + n) * unit == unit + n * unit
  {
  }

  lemma {:induction false} RequestsWeight(c: Clock, rs: seq<Request>, end: int, base: nat)
    requires Wellformed(c) && c.now <= end && base >= 1
    requires forall r :: r in rs ==> AtLeast(r, 1)
    ensures Weight(AppliedAll(c, rs).events, end, base)
         <= Weight(c.events, end, base) + Schedules(rs) * Power(base, end - c.now)
    decreases rs
  {
    if rs == [] {
    } else {
      RequestWeight(c, rs[0], end, base);
      RequestsWeight(Applied(c, rs[0]), rs[1..], end, base);
      OneMore(Schedules(rs[1..]), Power(base, end - c.now));
    }
  }

  ghost predicate Bounded<W(!new)>(p: Program<W>, most: nat) {
    forall w, c, b :: Schedules(p(w, c, b).1) <= most
  }

  lemma RequeueWeight(c: Clock, body: nat, end: int, base: nat)
    requires Wellformed(c) && PeriodsAtLeast(c.bodies, 1)
    requires body < |c.bodies| && c.now <= end && base >= 1
    ensures Weight(Requeued(c, body).events, end, base)
         <= Weight(c.events, end, base) + Power(base, end - c.now)
  {
    if c.bodies[body].period.Some? {
      var e := Entry(c.now + c.bodies[body].period.value, c.inserted, body);
      InsertWeight(c.events, e, end, base);
      LaterWeighsLess(e, c.now, end, base);
    }
  }

  lemma CallWeight(c: Clock, rs: seq<Request>, end: int, base: nat)
    requires Wellformed(c) && c.events != [] && c.now == c.events[0].time <= end && base >= 1
    requires forall r :: r in rs ==> AtLeast(r, 1)
    requires PeriodsAtLeast(AppliedAll(c, rs).bodies, 1)
    ensures Weight(AfterCall(c, c.events[0], rs).events, end, base)
         <= Weight(c.events, end, base) + (1 + Schedules(rs)) * Power(base, end - c.now)
  {
    RequestsKeepNow(c, rs);
    RequestsWeight(c, rs, end, base);
    RequeueWeight(AppliedAll(c, rs), c.events[0].body, end, base);
    OneMore(Schedules(rs), Power(base, end - c.now));
    assert c == c.(now := c.events[0].time);
  }

  lemma HeadOutweighs(n: nat, most: nat, unit: nat)
    requires n <= most && unit >= 1
    ensures (1 + n) * unit < (most + 2) * unit
  {
    assert (most + 2) * unit == (1 + n) * unit + (most + 1 - n) * unit;
    assert (most + 1 - n) * unit >= 1 * unit;
  }

  lemma HeadWeight(q: seq<Entry>, end: int, base: nat)
    requires q != [] && q[0].time <= end && base >= 1
    ensures Weight(q, end, base) == base * Power(base, end - q[0].time) + Weight(q[1..], end, base)
    ensures Power(base, end - q[0].time) >= 1
  {
    PowerGrows(base, 0, end - q[0].time);
  }

  lemma CallWeighsLess(c: Clock, rs: seq<Request>, end: int, most: nat)
    requires Orderly(c, 1) && c.events != [] && c.now == c.events[0].time <= end
    requires Schedules(rs) <= most && forall r :: r in rs ==> AtLeast(r, 1)
    ensures Weight(AfterCall(c, c.events[0], rs).events[1..], end, most + 2)
          < Weight(c.events, end, most + 2)
  {
    AppliedAllOrderly(c, rs, 1);
    CallWeight(c, rs, end, most + 2);
    AfterCallOrderly(c, rs, 1);
    CalledWeighsLess(AfterCall(c, c.events[0], rs).events, Weight(c.events, end, most + 2), Schedules(rs), end, most);
  }

  /** Erasing the entry called takes more off the queue than the call has put on. */
  lemma CalledWeighsLess(q: seq<Entry>, before: nat, n: nat, end: int, most: nat)
    requires q != [] && q[0].time <= end && n <= most
    requires Weight(q, end, most + 2) <= before + (1 + n) * Power(most + 2, end - q[0].time)
    ensures Weight(q[1..], end, most + 2) < before
  {
    HeadWeight(q, end, most + 2);
    HeadOutweighs(n, most, Power(most + 2, end - q[0].time));
  }

  lemma TurnWeighsLess<W(!new)>(p: Program<W>, s: Sim<W>, end: int, most: nat)
    requires Patient(p, 1) && Bounded(p, most)
    requires InOrder(s, 1) && Continues(s.clock, end)
    ensures Weight(Turn(p, s).clock.events, end, most + 2) < Weight(s.clock.events, end, most + 2)
  {
    var head := s.clock.events[0];
    var c := s.clock.(now := head.time);
    if c.bodies[head.body].canceled {
      HeadWeight(c.events, end, most + 2);
    } else {
      HeadTimeOrderly(s.clock, 1);
      CallWeighsLess(c, p(s.world, c, head.body).1, end, most);
    }
  }

  /** If every delay and period is at least one tick and no callback schedules more than `most` events,
      the simulation returns, after at most as many turns as its queue weighs. */
  lemma {:induction false} SimulationTerminates<W(!new)>(p: Program<W>, s: Sim<W>, end: int, most: nat)
    requires Patient(p, 1) && Bounded(p, most) && InOrder(s, 1)
    ensures Loop(p, s, end, Weight(s.clock.events, end, most + 2)).Some?
    decreases Weight(s.clock.events, end, most + 2)
  {
    if !Continues(s.clock, end) {
    } else {
      var t := Turn(p, s);
      TurnWeighsLess(p, s, end, most);
      TurnInOrder(p, s, 1);
      SimulationTerminates(p, t, end, most);
      MoreFuel(p, t, end, Weight(t.clock.events, end, most + 2), Weight(s.clock.events, end, most + 2) - 1);
    }
  }

  // ----- the closed form for periodic loads

  ghost predicate Inert<W(!new)>(p: Program<W>) {
    forall w, c, b :: p(w, c, b).1 == []
  }

  /** Everything queued is periodic, not cancelled, and has a period of at least one tick. */
  predicate PeriodicLoad(c: Clock) {
    && Orderly(c, 1)
    && !c.stopped
    && forall i :: 0 <= i < |c.events| ==>
         !c.bodies[c.events[i].body].canceled && c.bodies[c.events[i].body].period.Some?
  }

  function Period(bodies: seq<Body>, e: Entry): int {
    if e.body < |bodies| && bodies[e.body].period.Some? then bodies[e.body].period.value else 1
  }

  /** Those instants. */
  function Instants(t: int, p: int, end: int): seq<int>
    requires p >= 1
    decreases if t > end then 0 else end - t + 1
  {
    if t > end then [] else [t] + Instants(t + p, p, end)
  }

  /** The instants are t + k * p for every k that stays within `end`, and no others. */
  lemma {:induction false} InstantsAre(t: int, p: int, end: int)
    requires p >= 1
    ensures |Instants(t, p, end)| == Ticks(t, p, end)
    ensures forall k :: 0 <= k < Ticks(t, p, end) ==> Instants(t, p, end)[k] == t + k * p
    ensures t + Ticks(t, p, end) * p > end
    decreases if t > end then 0 else end - t + 1
  {
    if t > end {
    } else {
      OneTick(t, p, end);
      InstantsAre(t + p, p, end);
      forall k | 1 <= k < Ticks(t, p, end) ensures Instants(t, p, end)[k] == t + k * p {
        assert Instants(t, p, end)[k] == Instants(t + p, p, end)[k - 1];
        assert (t + p) + (k - 1) * p == t + k * p;
      }
      assert (t + p) + Ticks(t + p, p, end) * p == t + Ticks(t, p, end) * p;
    }
  }

  /** How many calls the queue holds up to `end`. */
  function Total(q: seq<Entry>, bodies: seq<Body>, end: int): nat
    requires PeriodsAtLeast(bodies, 1)
  {
    if q == [] then 0
    else
      Ticks(q[0].time, Period(bodies, q[0]), end) + Total(q[1..], bodies, end)
  }

  lemma {:induction false} InsertTotal(q: seq<Entry>, e: Entry, bodies: seq<Body>, end: int)
    requires PeriodsAtLeast(bodies, 1)
    ensures Total(Insert(q, e), bodies, end)
         == Total(q, bodies, end) + Ticks(e.time, Period(bodies, e), end)
  {
    if q == [] || e.time < q[0].time {
    } else {
      InsertTotal(q[1..], e, bodies, end);
    }
  }

  /** The clock after an uneventful call: the head moves one period on. */
  function Rotated(c: Clock): Clock
    requires c.events != []
  {
    var head := c.events[0];
    var again := Entry(head.time + Period(c.bodies, head), c.inserted, head.body);
    Clock(head.time, Insert(c.events[1..], again), c.bodies, c.inserted + 1, false)
  }

  lemma InertTurn<W(!new)>(p: Program<W>, s: Sim<W>)
    requires Inert(p) && PeriodicLoad(s.clock) && s.clock.events != []
    ensures Turn(p, s).clock == Rotated(s.clock)
    ensures Turn(p, s).trace == s.trace + [s.clock.events[0]]
  {
    var head := s.clock.events[0];
    var c := s.clock.(now := head.time);
    assert p(s.world, c, head.body).1 == [];
    InsertHead(c.events, Entry(head.time + Period(c.bodies, head), c.inserted, head.body));
  }

  lemma RotatedLoad(c: Clock)
    requires PeriodicLoad(c) && c.events != []
    ensures PeriodicLoad(Rotated(c))
  {
    var head := c.events[0];
    var again := Entry(head.time + Period(c.bodies, head), c.inserted, head.body);
    HeadTimeOrderly(c, 1);
    var rest := c.(now := head.time, events := c.events[1..]);
    PushOrderly(rest, again.time, head.body, 1);
    InsertMembers(rest.events, again);
    forall e | e in Insert(rest.events, again)
      ensures !c.bodies[e.body].canceled && c.bodies[e.body].period.Some?
    {
      assert e == again || e in c.events[1..];
    }
  }

  lemma RotatedCounts(c: Clock, end: int)
    requires PeriodsAtLeast(c.bodies, 1) && c.events != [] && c.events[0].time <= end
    ensures Total(c.events, c.bodies, end) == 1 + Total(Rotated(c).events, c.bodies, end)
  {
    var head := c.events[0];
    var again := Entry(head.time + Period(c.bodies, head), c.inserted, head.body);
    InsertTotal(c.events[1..], again, c.bodies, end);
    OneTick(head.time, Period(c.bodies, head), end);
  }

  /** The instants at which a body with one entry is still to be called. */
  function Remaining(c: Clock, end: int, body: nat): seq<int>
    requires PeriodsAtLeast(c.bodies, 1)
  {
    if |TimesOf(c.events, body)| != 1 then []
    else Instants(TimesOf(c.events, body)[0], Period(c.bodies, Entry(0, 0, body)), end)
  }

  lemma RotatedTimes(c: Clock, trace: seq<Entry>, body: nat, end: int)
    requires PeriodsAtLeast(c.bodies, 1) && c.events != [] && c.events[0].time <= end
    requires |TimesOf(c.events, body)| == 1
    ensures |TimesOf(Rotated(c).events, body)| == 1
    ensures TimesOf(trace + [c.events[0]], body) + Remaining(Rotated(c), end, body)
         == TimesOf(trace, body) + Remaining(c, end, body)
  {
    var head := c.events[0];
    var again := Entry(head.time + Period(c.bodies, head), c.inserted, head.body);
    InsertTimes(c.events[1..], again, body);
    TimesSnoc(trace, head, body);
    if head.body == body {
      assert TimesOf(c.events, body) == [head.time] + TimesOf(c.events[1..], body);
      assert TimesOf(c.events[1..], body) == [];
    }
  }

  /** The calls `simulate` makes: as many as the load holds instants up to the end, and those of a
      body with one entry, first due at t with period p, at t, t + p, t + 2p, ... */
  ghost predicate RunsOnSchedule<W(!new)>(p: Program<W>, s: Sim<W>, end: int, body: nat)
    requires Wellformed(s.clock) && PeriodsAtLeast(s.clock.bodies, 1)
  {
    var n := Total(s.clock.events, s.clock.bodies, end);
    var r := Loop(p, s, end, n);
    && r.Some?
    && |r.value.trace| == |s.trace| + n
    && (|TimesOf(s.clock.events, body)| == 1 ==>
          TimesOf(r.value.trace, body) == TimesOf(s.trace, body) + Remaining(s.clock, end, body))
  }

  /** With inert callbacks and a periodic load, `simulate` returns, and it runs on schedule. */
  lemma {:induction false} PeriodicClosedForm<W(!new)>(p: Program<W>, s: Sim<W>, end: int, body: nat)
    requires Inert(p) && PeriodicLoad(s.clock) && s.clock.now <= end
    ensures RunsOnSchedule(p, s, end, body)
    decreases Total(s.clock.events, s.clock.bodies, end)
  {
    if !Continues(s.clock, end) {
      NothingDue(s.clock, end, body);
    } else {
      InertTurn(p, s);
      RotatedLoad(s.clock);
      RotatedCounts(s.clock, end);
      PeriodicClosedForm(p, Turn(p, s), end, body);
      OnScheduleOneTurn(p, s, Turn(p, s), end, body);
    }
  }

  lemma OnScheduleOneTurn<W(!new)>(p: Program<W>, s: Sim<W>, t: Sim<W>, end: int, body: nat)
    requires PeriodicLoad(s.clock) && Continues(s.clock, end) && t == Turn(p, s)
    requires t.clock == Rotated(s.clock) && t.trace == s.trace + [s.clock.events[0]]
    requires RunsOnSchedule(p, t, end, body)
    ensures RunsOnSchedule(p, s, end, body)
  {
    RotatedCounts(s.clock, end);
    if |TimesOf(s.clock.events, body)| == 1 {
      RotatedTimes(s.clock, s.trace, body, end);
    }
  }

  lemma {:induction false} NothingDue(c: Clock, end: int, body: nat)
    requires PeriodicLoad(c) && c.now <= end && !Continues(c, end)
    ensures Total(c.events, c.bodies, end) == 0
    ensures |TimesOf(c.events, body)| >= 1 ==> TimesOf(c.events, body)[0] > end
  {
    forall e | e in c.events ensures e.time > end {
      assert e == c.events[0] || Before(c.events[0], e);
    }
    AllLater(c.events, c.bodies, end, body);
  }

  lemma {:induction false} AllLater(q: seq<Entry>, bodies: seq<Body>, end: int, body: nat)
    requires PeriodsAtLeast(bodies, 1)
    requires forall e :: e in q ==> e.time > end
    ensures Total(q, bodies, end) == 0
    ensures |TimesOf(q, body)| >= 1 ==> TimesOf(q, body)[0] > end
  {
    if q == [] {
    } else {
      AllLater(q[1..], bodies, end, body);
    }
  }
}
