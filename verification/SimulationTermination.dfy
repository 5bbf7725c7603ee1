// When a call of `MicroSimulator.simulate` does not return.

module SimulationTermination {
  import opened Options
  import opened EventQueue
  import opened MicroSimulator
  import opened SimulationTheorems

  predicate InTime(q: seq<Entry>) {
    forall i, j :: 0 <= i < j < |q| ==> q[i].time <= q[j].time
  }

  lemma {:induction false} InsertInTime(q: seq<Entry>, e: Entry)
    requires InTime(q)
    ensures InTime(Insert(q, e))
  {
    if q == [] || e.time < q[0].time {
    } else {
      InsertInTime(q[1..], e);
      InsertMembers(q[1..], e);
      forall x | x in Insert(q[1..], e) ensures q[0].time <= x.time {
        assert x in q[1..] || x == e;
      }
    }
  }

  /** An entry of this body that is due. */
  predicate Pending(q: seq<Entry>, end: int, b: nat) {
    exists i :: 0 <= i < |q| && q[i].body == b && q[i].time <= end
  }

  /** How many there are. */
  function Count(q: seq<Entry>, end: int, b: nat): nat {
    if q == [] then 0 else (if q[0].body == b && q[0].time <= end then 1 else 0) + Count(q[1..], end, b)
  }

  lemma {:induction false} CountIs(q: seq<Entry>, end: int, b: nat)
    ensures Count(q, end, b) > 0 <==> Pending(q, end, b)
  {
    if q == [] {
    } else {
      CountIs(q[1..], end, b);
      if Pending(q[1..], end, b) {
        var i :| 0 <= i < |q[1..]| && q[1..][i].body == b && q[1..][i].time <= end;
        assert q[i + 1].body == b;
      }
      if i :| 0 < i < |q| && q[i].body == b && q[i].time <= end {
        assert q[1..][i - 1].body == b;
      }
    }
  }

  lemma {:induction false} InsertCount(q: seq<Entry>, e: Entry, end: int, b: nat)
    ensures Count(Insert(q, e), end, b) == Count(q, end, b) + (if e.body == b && e.time <= end then 1 else 0)
  {
    if q == [] || e.time < q[0].time {
    } else {
      InsertCount(q[1..], e, end, b);
    }
  }

  // ----- a body that keeps the simulator busy

  /** Whether a request leaves body b and the stop flag alone. */
  predicate SparesBody(r: Request, b: nat) {
    match r
    case Cancel(h) => h != b
    case ChangePeriod(h, _) => h != b
    case Stop => false
    case _ => true
  }

  ghost predicate Spares<W(!new)>(p: Program<W>, b: nat) {
    forall w, c, h, r :: r in p(w, c, h).1 ==> SparesBody(r, b)
  }

  /** Body b is not cancelled and has a period that is not positive. */
  predicate Sticks(bodies: seq<Body>, b: nat) {
    b < |bodies| && !bodies[b].canceled && bodies[b].period.Some? && bodies[b].period.value <= 0
  }

  /** It is due, and the simulator is not stopped. */
  predicate Busy(c: Clock, end: int, b: nat) {
    Wellformed(c) && InTime(c.events) && !c.stopped && Sticks(c.bodies, b) && Count(c.events, end, b) > 0
  }

  /** What a request leaves of it: no entry of b less, and nothing of another kind at the head but what
      is new. */
  lemma AppliedBusy(c: Clock, r: Request, end: int, b: nat)
    requires Busy(c, end, b) && SparesBody(r, b)
    ensures Busy(Applied(c, r), end, b)
    ensures Count(Applied(c, r).events, end, b) == Count(c.events, end, b)
    ensures var h := Applied(c, r).events[0];
      h == c.events[0] || h.body >= |c.bodies|
    ensures |Applied(c, r).bodies| >= |c.bodies| && Applied(c, r).now == c.now
  {
    match r
    case Schedule(_, delay) => PushedBusy(c, end, b, delay);
    case SchedulePeriodic(_, delay, _) => PushedBusy(c, end, b, delay);
    case _ =>
  }

  lemma PushedBusy(c: Clock, end: int, b: nat, delay: int)
    requires Busy(c, end, b)
    ensures var q := Insert(c.events, Entry(c.now + delay, c.inserted, |c.bodies|));
      InTime(q) && Count(q, end, b) == Count(c.events, end, b)
  {
    InsertInTime(c.events, Entry(c.now + delay, c.inserted, |c.bodies|));
    InsertCount(c.events, Entry(c.now + delay, c.inserted, |c.bodies|), end, b);
  }

  lemma {:induction false} AllAppliedBusy(c: Clock, rs: seq<Request>, end: int, b: nat)
    requires Busy(c, end, b) && forall r :: r in rs ==> SparesBody(r, b)
    ensures var d := AppliedAll(c, rs);
      && Busy(d, end, b) && d.now == c.now && |d.bodies| >= |c.bodies|
      && Count(d.events, end, b) == Count(c.events, end, b)
      && (d.events[0] == c.events[0] || d.events[0].body >= |c.bodies|)
    decreases rs
  {
    if rs == [] {
    } else {
      AppliedBusy(c, rs[0], end, b);
      AllAppliedBusy(Applied(c, rs[0]), rs[1..], end, b);
    }
  }

  lemma EraseInTime(q: seq<Entry>)
    requires InTime(q) && q != []
    ensures InTime(q[1..])
  {
  }

  lemma PutBackCount(q: seq<Entry>, e: Entry, head: Entry, end: int, b: nat)
    requires InTime(q) && q != [] && Count(q, end, b) > 0 && (q[0] == head || q[0].body != b)
    requires e.body == head.body && (head.body == b ==> e.time <= end)
    ensures InTime(Insert(q, e)[1..]) && Count(Insert(q, e)[1..], end, b) > 0
  {
    InsertInTime(q, e);
    InsertCount(q, e, end, b);
    EraseInTime(Insert(q, e));
  }

  /** Putting the body called back and erasing the first entry. */
  lemma RequeuedBusy(m: Clock, head: Entry, end: int, b: nat)
    requires Busy(m, end, b) && head.body < |m.bodies| && m.now == head.time <= end
    requires m.events[0] == head || m.events[0].body != b
    ensures var d := Requeued(m, head.body);
      Busy(d.(events := d.events[1..]), end, b)
  {
    if m.bodies[head.body].period.Some? {
      var e := Entry(m.now + m.bodies[head.body].period.value, m.inserted, head.body);
      PutBackCount(m.events, e, head, end, b);
    } else {
      EraseInTime(m.events);
    }
  }

  /** Calling the head and erasing the first entry leaves the simulator busy: if it was b's entry, b has
      been put back before the erase, and otherwise the entry erased is not b's. */
  lemma CalledBusy(c: Clock, rs: seq<Request>, end: int, b: nat)
    requires Busy(c, end, b) && c.now == c.events[0].time <= end
    requires forall r :: r in rs ==> SparesBody(r, b)
    ensures var d := AfterCall(c, c.events[0], rs);
      Busy(d.(events := d.events[1..]), end, b)
  {
    var head := c.events[0];
    assert c.(now := head.time) == c;
    AllAppliedBusy(c, rs, end, b);
    RequeuedBusy(AppliedAll(c, rs), head, end, b);
  }

  lemma BusyHead(c: Clock, end: int, b: nat)
    requires Busy(c, end, b)
    ensures c.events[0].time <= end
  {
    CountIs(c.events, end, b);
    var i :| 0 <= i < |c.events| && c.events[i].body == b && c.events[i].time <= end;
    assert i == 0 || c.events[0].time <= c.events[i].time;
  }

  lemma TurnBusy<W(!new)>(p: Program<W>, s: Sim<W>, end: int, b: nat)
    requires Spares(p, b) && Busy(s.clock, end, b)
    ensures Busy(Turn(p, s).clock, end, b) && Turn(p, s).clock.now <= end
  {
    BusyHead(s.clock, end, b);
    TurnSetsNow(p, s);
    var head := s.clock.events[0];
    var c := s.clock.(now := head.time);
    if !c.bodies[head.body].canceled {
      CalledBusy(c, p(s.world, c, head.body).1, end, b);
    }
  }

  /** A due body with a period that is not positive, which no callback cancels, re-times or saves by
      stopping the simulator, keeps `simulate` from ever returning, whatever else the callbacks do. */
  lemma {:induction false} NonpositivePeriodNeverReturns<W(!new)>(p: Program<W>, s: Sim<W>, end: int, b: nat, n: nat)
    requires Spares(p, b) && Busy(s.clock, end, b) && s.clock.now <= end
    ensures Loop(p, s, end, n) == None
    decreases n
  {
    BusyHead(s.clock, end, b);
    if n == 0 {
    } else {
      TurnBusy(p, s, end, b);
      NonpositivePeriodNeverReturns(p, Turn(p, s), end, b, n - 1);
    }
  }

  // ----- callbacks that keep it busy

  /** A request for a new event that is not for later. */
  predicate Prompt(r: Request) {
    (r.Schedule? || r.SchedulePeriodic?) && r.delay <= 0
  }

  predicate SomePrompt(rs: seq<Request>) {
    exists k :: 0 <= k < |rs| && Prompt(rs[k])
  }

  predicate Lenient(r: Request) {
    !r.Cancel? && !r.Stop?
  }

  /** Every call asks, among other things, for an event that is not for later, and none cancels or stops. */
  ghost predicate Insists<W(!new)>(p: Program<W>) {
    && (forall w, c, h :: SomePrompt(p(w, c, h).1))
    && (forall w, c, h, r :: r in p(w, c, h).1 ==> Lenient(r))
  }

  predicate Uncanceled(bodies: seq<Body>, b: nat) {
    b < |bodies| && !bodies[b].canceled
  }

  /** How many entries are due and belong to a body that is not cancelled. */
  function Live(q: seq<Entry>, bodies: seq<Body>, end: int): nat {
    if q == [] then 0
    else (if q[0].time <= end && Uncanceled(bodies, q[0].body) then 1 else 0) + Live(q[1..], bodies, end)
  }

  lemma {:induction false} LiveIs(q: seq<Entry>, bodies: seq<Body>, end: int)
    ensures Live(q, bodies, end) > 0 <==> exists i :: 0 <= i < |q| && q[i].time <= end && Uncanceled(bodies, q[i].body)
  {
    if q == [] {
    } else {
      LiveIs(q[1..], bodies, end);
      if i :| 0 <= i < |q[1..]| && q[1..][i].time <= end && Uncanceled(bodies, q[1..][i].body) {
        assert q[i + 1].time <= end && Uncanceled(bodies, q[i + 1].body);
      }
      if i :| 0 < i < |q| && q[i].time <= end && Uncanceled(bodies, q[i].body) {
        assert q[1..][i - 1].time <= end && Uncanceled(bodies, q[1..][i - 1].body);
      }
    }
  }

  lemma {:induction false} InsertLive(q: seq<Entry>, e: Entry, bodies: seq<Body>, end: int)
    ensures Live(Insert(q, e), bodies, end)
         == Live(q, bodies, end) + (if e.time <= end && Uncanceled(bodies, e.body) then 1 else 0)
  {
    if q == [] || e.time < q[0].time {
    } else {
      InsertLive(q[1..], e, bodies, end);
    }
  }

  /** More bodies, or others with the same cancel flags, make no difference to a queue. */
  lemma {:induction false} SameLive(q: seq<Entry>, a: seq<Body>, b: seq<Body>, end: int)
    requires BodiesBelow(q, |a|) && |a| <= |b|
    requires forall i :: 0 <= i < |a| ==> a[i].canceled == b[i].canceled
    ensures Live(q, a, end) == Live(q, b, end)
  {
    if q == [] {
    } else {
      SameLive(q[1..], a, b, end);
    }
  }

  /** In time order, not stopped, and something live is due. */
  predicate Lively(c: Clock, end: int) {
    Wellformed(c) && InTime(c.events) && !c.stopped && Live(c.events, c.bodies, end) > 0
  }

  lemma NewEventLive(c: Clock, body: Body, delay: int, end: int)
    requires Lively(c, end) && !body.canceled
    ensures var d := Scheduled(c, body, delay);
      && Lively(d, end)
      && Live(d.events, d.bodies, end) == Live(c.events, c.bodies, end) + (if c.now + delay <= end then 1 else 0)
  {
    var bodies := c.bodies + [body];
    var e := Entry(c.now + delay, c.inserted, |c.bodies|);
    SameLive(c.events, c.bodies, bodies, end);
    InsertLive(c.events, e, bodies, end);
    InsertInTime(c.events, e);
  }

  /** What a call's requests do to what is live: nothing becomes less, and a prompt one makes it more. */
  predicate Enlivens(c: Clock, d: Clock, end: int, more: nat) {
    && Lively(d, end) && d.now == c.now && |c.bodies| <= |d.bodies|
    && Live(d.events, d.bodies, end) >= Live(c.events, c.bodies, end) + more
    && forall i :: 0 <= i < |c.bodies| ==> d.bodies[i].canceled == c.bodies[i].canceled
  }

  lemma AppliedLively(c: Clock, r: Request, end: int)
    requires Lively(c, end) && c.now <= end && Lenient(r)
    ensures Enlivens(c, Applied(c, r), end, if Prompt(r) then 1 else 0)
  {
    match r
    case Schedule(code, delay) => NewEventLive(c, Body(code, None, false), delay, end);
    case SchedulePeriodic(code, delay, period) => NewEventLive(c, Body(code, Some(period), false), delay, end);
    case ChangePeriod(h, _) => SameLive(c.events, c.bodies, Applied(c, r).bodies, end);
  }

  lemma {:induction false} AllAppliedLively(c: Clock, rs: seq<Request>, end: int)
    requires Lively(c, end) && c.now <= end && forall r :: r in rs ==> Lenient(r)
    ensures Enlivens(c, AppliedAll(c, rs), end, if SomePrompt(rs) then 1 else 0)
    decreases rs
  {
    if rs == [] {
    } else {
      AppliedLively(c, rs[0], end);
      AllAppliedLively(Applied(c, rs[0]), rs[1..], end);
      if k :| 0 < k < |rs| && Prompt(rs[k]) {
        assert Prompt(rs[1..][k - 1]);
      }
    }
  }

  lemma RequeuedLively(c: Clock, m: Clock, body: nat, end: int, more: nat)
    requires Enlivens(c, m, end, more) && body < |m.bodies|
    ensures Enlivens(c, Requeued(m, body), end, more)
  {
    if m.bodies[body].period.Some? {
      var e := Entry(m.now + m.bodies[body].period.value, m.inserted, body);
      InsertLive(m.events, e, m.bodies, end);
      InsertInTime(m.events, e);
    }
  }

  lemma LivelyHead(c: Clock, end: int)
    requires Lively(c, end)
    ensures c.events != [] && c.events[0].time <= end
  {
    LiveIs(c.events, c.bodies, end);
    var i :| 0 <= i < |c.events| && c.events[i].time <= end && Uncanceled(c.bodies, c.events[i].body);
    assert i == 0 || c.events[0].time <= c.events[i].time;
  }

  lemma TurnLively<W(!new)>(p: Program<W>, s: Sim<W>, end: int)
    requires Insists(p) && Lively(s.clock, end)
    ensures Lively(Turn(p, s).clock, end) && Turn(p, s).clock.now <= end
  {
    LivelyHead(s.clock, end);
    TurnSetsNow(p, s);
    var head := s.clock.events[0];
    var c := s.clock.(now := head.time);
    if c.bodies[head.body].canceled {
      EraseInTime(c.events);
    } else {
      var rs := p(s.world, c, head.body).1;
      AllAppliedLively(c, rs, end);
      RequeuedLively(c, AppliedAll(c, rs), head.body, end, 1);
      EraseInTime(AfterCall(c, head, rs).events);
    }
  }

  /** Nor does it return when every call asks for another event without a delay, whatever else the calls ask
      for, as long as they do not cancel or stop. */
  lemma {:induction false} ZeroDelayNeverReturns<W(!new)>(p: Program<W>, s: Sim<W>, end: int, n: nat)
    requires Insists(p) && Lively(s.clock, end) && s.clock.now <= end
    ensures Loop(p, s, end, n) == None
    decreases n
  {
    LivelyHead(s.clock, end);
    if n == 0 {
    } else {
      TurnLively(p, s, end);
      ZeroDelayNeverReturns(p, Turn(p, s), end, n - 1);
    }
  }

  // ----- the exact condition for callbacks that ask for nothing

  function Periods(bodies: seq<Body>): seq<Option<int>> {
    seq(|bodies|, b requires 0 <= b < |bodies| => bodies[b].period)
  }

  /** No due entry belongs to a body that sticks. */
  predicate Smooth(c: Clock, end: int) {
    forall e :: e in c.events && e.time <= end ==> !Sticks(c.bodies, e.body)
  }

  /** The queue after a turn without requests. */
  function InertQueue(c: Clock): seq<Entry>
    requires Wellformed(c) && c.events != []
  {
    var head := c.events[0];
    var body := c.bodies[head.body];
    if body.canceled || body.period.None? then c.events[1..]
    else Insert(c.events, Entry(head.time + body.period.value, c.inserted, head.body))[1..]
  }

  lemma InertTurnIs<W(!new)>(p: Program<W>, s: Sim<W>)
    requires Inert(p) && Wellformed(s.clock) && s.clock.events != []
    ensures var u := Turn(p, s).clock;
      u.events == InertQueue(s.clock) && u.bodies == s.clock.bodies && u.stopped == s.clock.stopped
  {
  }

  lemma InertQueueShrinks(c: Clock, end: int)
    requires Wellformed(c) && Smooth(c, end) && c.events != [] && c.events[0].time <= end
    ensures Work(InertQueue(c), Periods(c.bodies), end) < Work(c.events, Periods(c.bodies), end)
    ensures forall e :: e in InertQueue(c) ==> e in c.events || e.body == c.events[0].body
  {
    var q := c.events;
    var body := c.bodies[q[0].body];
    AtLeastOneRound(q[0], Periods(c.bodies), end);
    assert q[0] in q;
    if !body.canceled && body.period.Some? {
      var e := Entry(q[0].time + body.period.value, c.inserted, q[0].body);
      RoundTaken(q, e, Periods(c.bodies), end);
      InsertMembers(q, e);
    }
  }

  lemma InertTurnEndsSooner<W(!new)>(p: Program<W>, s: Sim<W>, end: int)
    requires Inert(p) && Wellformed(s.clock) && Smooth(s.clock, end)
    requires s.clock.events != [] && s.clock.events[0].time <= end
    ensures var u := Turn(p, s).clock;
      && Smooth(u, end) && u.stopped == s.clock.stopped
      && Work(u.events, Periods(u.bodies), end) < Work(s.clock.events, Periods(s.clock.bodies), end)
  {
    InertTurnIs(p, s);
    InertQueueShrinks(s.clock, end);
    assert s.clock.events[0] in s.clock.events;
  }

  lemma {:induction false} SmoothReturns<W(!new)>(p: Program<W>, s: Sim<W>, end: int, n: nat)
    requires Inert(p) && Wellformed(s.clock) && Smooth(s.clock, end)
    requires Work(s.clock.events, Periods(s.clock.bodies), end) <= n
    ensures Loop(p, s, end, n).Some?
    decreases n
  {
    if !Continues(s.clock, end) {
    } else {
      InertTurnEndsSooner(p, s, end);
      SmoothReturns(p, Turn(p, s), end, n - 1);
    }
  }

  ghost predicate Returns<W(!new)>(p: Program<W>, s: Sim<W>, end: int)
    requires Wellformed(s.clock)
  {
    exists n: nat :: Loop(p, s, end, n).Some?
  }

  /** With callbacks that ask for nothing, a call of `simulate` that is not over at once returns if and only
      if no due entry belongs to a body that is not cancelled and whose period is not positive. */
  lemma InertReturnsExactly<W(!new)>(p: Program<W>, s: Sim<W>, end: int)
    requires Inert(p) && Wellformed(s.clock) && InTime(s.clock.events)
    requires !s.clock.stopped && s.clock.now <= end
    ensures Returns(p, s, end) <==> Smooth(s.clock, end)
  {
    if Smooth(s.clock, end) {
      SmoothReturns(p, s, end, Work(s.clock.events, Periods(s.clock.bodies), end));
    } else {
      var e :| e in s.clock.events && e.time <= end && Sticks(s.clock.bodies, e.body);
      CountIs(s.clock.events, end, e.body);
      forall n: nat ensures Loop(p, s, end, n) == None {
        NonpositivePeriodNeverReturns(p, s, end, e.body, n);
      }
    }
  }
}
