// Model of src/Utilities/Scheduler/MicroSimulator.cpp and Event.cpp: the discrete-event simulator.

module MicroSimulator {
  import opened Options
  import opened EventQueue

  // ----- the state and its operations as values

  /** An EventBody: which callback it holds, its period and its cancel flag. Event handles are
      indices into the table of all bodies ever scheduled. */
  datatype Body = Body(code: int, period: Option<int>, canceled: bool)

  datatype Clock = Clock(now: int, events: seq<Entry>, bodies: seq<Body>, inserted: nat, stopped: bool)

  /** What a callback can ask of the simulator while it runs. */
  datatype Request =
    | Schedule(code: int, delay: int)
    | SchedulePeriodic(code: int, delay: int, period: int)
    | Cancel(handle: nat)
    | ChangePeriod(handle: nat, newPeriod: int)
    | Stop

  /** All callbacks at once: from the state they share, the simulator they can look at and the body
      being run, to the new shared state and their requests in order. */
  type Program<!W> = (W, Clock, nat) -> (W, seq<Request>)

  /** A simulator, the state its callbacks share, and the calls made so far. */
  datatype Sim<W> = Sim(clock: Clock, world: W, trace: seq<Entry>)

  predicate Wellformed(c: Clock) {
    BodiesBelow(c.events, |c.bodies|)
  }

  function Push(c: Clock, time: int, body: nat): (r: Clock)
    requires Wellformed(c) && body < |c.bodies|
    ensures Wellformed(r)
  {
    var e := Entry(time, c.inserted, body);
    InsertBelow(c.events, e, |c.bodies|);
    c.(events := Insert(c.events, e), inserted := c.inserted + 1)
  }

  function Scheduled(c: Clock, b: Body, delay: int): (r: Clock)
    requires Wellformed(c)
    ensures Wellformed(r)
  {
    Push(c.(bodies := c.bodies + [b]), c.now + delay, |c.bodies|)
  }

  function Applied(c: Clock, r: Request): (d: Clock)
    requires Wellformed(c)
    ensures Wellformed(d) && |d.bodies| >= |c.bodies| && |d.events| >= |c.events|
  {
    match r
    case Schedule(code, delay) => Scheduled(c, Body(code, None, false), delay)
    case SchedulePeriodic(code, delay, period) => Scheduled(c, Body(code, Some(period), false), delay)
    case Cancel(h) =>
      if h < |c.bodies| then c.(bodies := c.bodies[h := c.bodies[h].(canceled := true)]) else c
    case ChangePeriod(h, p) =>
      if h < |c.bodies| && c.bodies[h].period.Some?
      then c.(bodies := c.bodies[h := c.bodies[h].(period := Some(p))]) else c
    case Stop => c.(stopped := true)
  }

  function AppliedAll(c: Clock, rs: seq<Request>): (d: Clock)
    requires Wellformed(c)
    ensures Wellformed(d) && |d.bodies| >= |c.bodies| && |d.events| >= |c.events|
    decreases rs
  {
    if rs == [] then c else AppliedAll(Applied(c, rs[0]), rs[1..])
  }

  /** The period is looked at after the callback has run, so the callback can change it. */
  function Requeued(c: Clock, body: nat): (d: Clock)
    requires Wellformed(c) && body < |c.bodies|
    ensures Wellformed(d) && |d.bodies| >= |c.bodies| && |d.events| >= |c.events|
  {
    match c.bodies[body].period
    case None => c
    case Some(p) => Push(c, c.now + p, body)
  }

  predicate Due(c: Clock, end: int) {
    c.now <= end && c.events != [] && c.events[0].time <= end
  }

  predicate Continues(c: Clock, end: int) {
    Due(c, end) && !c.stopped
  }

  /** The queue just before the erase at the end of an iteration that calls a body. */
  function AfterCall(c: Clock, head: Entry, rs: seq<Request>): (d: Clock)
    requires Wellformed(c) && head.body < |c.bodies|
    ensures Wellformed(d) && |d.bodies| >= |c.bodies| && |d.events| >= |c.events|
  {
    Requeued(AppliedAll(c.(now := head.time), rs), head.body)
  }

  /** One turn of the loop of `simulate`. */
  function Turn<W>(program: Program<W>, s: Sim<W>): (r: Sim<W>)
    requires Wellformed(s.clock) && s.clock.events != []
    ensures Wellformed(r.clock)
  {
    var c := s.clock;
    var head := c.events[0];
    if c.bodies[head.body].canceled then
      s.(clock := c.(now := head.time, events := c.events[1..]))
    else
      var (world, requests) := program(s.world, c.(now := head.time), head.body);
      var d := AfterCall(c, head, requests);
      Sim(d.(events := d.events[1..]), world, s.trace + [head])
  }

  /** Leaving the loop: a stop leaves the clock where it is, anything else moves it to the end. */
  function Leave<W>(s: Sim<W>, end: int): Sim<W> {
    if Due(s.clock, end) then s else s.(clock := s.clock.(now := end))
  }

  /** The loop of `simulate` cut off after `fuel` turns: None when it is still running then. */
  function Loop<W>(program: Program<W>, s: Sim<W>, end: int, fuel: nat): (r: Option<Sim<W>>)
    requires Wellformed(s.clock)
    ensures r.Some? ==> Wellformed(r.value.clock)
    decreases fuel
  {
    if !Continues(s.clock, end) then Some(Leave(s, end))
    else if fuel == 0 then None
    else Loop(program, Turn(program, s), end, fuel - 1)
  }

  /** The same loop seen after at most `n` turns, whether or not it is over by then. */
  function SoFar<W>(program: Program<W>, s: Sim<W>, end: int, n: nat): (r: Sim<W>)
    requires Wellformed(s.clock)
    ensures Wellformed(r.clock)
    decreases n
  {
    if n == 0 || !Continues(s.clock, end) then s else SoFar(program, Turn(program, s), end, n - 1)
  }

  /** Both in one: whether the loop is over within `n` turns, and the state it is then in. */
  function Watched<W>(program: Program<W>, s: Sim<W>, end: int, n: nat): (bool, Sim<W>)
    requires Wellformed(s.clock)
    decreases n
  {
    if !Continues(s.clock, end) then (true, Leave(s, end))
    else if n == 0 then (false, s)
    else Watched(program, Turn(program, s), end, n - 1)
  }

  lemma {:induction false} WatchedIs<W>(program: Program<W>, s: Sim<W>, end: int, n: nat)
    requires Wellformed(s.clock)
    ensures var r := Loop(program, s, end, n);
      Watched(program, s, end, n) == if r.Some? then (true, r.value) else (false, SoFar(program, s, end, n))
    decreases n
  {
    if n == 0 || !Continues(s.clock, end) {
    } else {
      WatchedIs(program, Turn(program, s), end, n - 1);
    }
  }

  // ----- the class

  class MicroSimulator<W(!new)> {
    const program: Program<W>
    var now: int
    var runs: nat
    var events: seq<Entry>
    var bodies: seq<Body>
    var stopped: bool
    var world: W
    var inserted: nat
    ghost var trace: seq<Entry>

    ghost function Timing(): Clock
      reads this
    {
      Clock(now, events, bodies, inserted, stopped)
    }

    ghost function State(): Sim<W>
      reads this
    {
      Sim(Timing(), world, trace)
    }

    ghost predicate Valid()
      reads this
    {
      Wellformed(Timing())
    }

    constructor (program: Program<W>, world: W)
      ensures Valid() && this.program == program
      ensures State() == Sim(Clock(0, [], [], 0, false), world, [])
    {
      this.program := program;
      this.world := world;
      now, runs, events, bodies, stopped := 0, 0, [], [], false;
      inserted, trace := 0, [];
    }

    method InsertEvent(time: int, body: nat)
      requires Valid() && body < |bodies|
      modifies `events, `inserted
      ensures Timing() == Push(old(Timing()), time, body)
    {
      InsertBelow(events, Entry(time, inserted, body), |bodies|);
      events := Insert(events, Entry(time, inserted, body));
      inserted := inserted + 1;
    }

    method Schedule(code: int, initialFromNow: int) returns (event: nat)
      requires Valid()
      modifies `events, `inserted, `bodies
      ensures Valid() && event == |old(bodies)|
      ensures Timing() == Applied(old(Timing()), Request.Schedule(code, initialFromNow))
    {
      event := |bodies|;
      bodies := bodies + [Body(code, None, false)];
      InsertEvent(now + initialFromNow, event);
    }

    method SchedulePeriodic(code: int, initialFromNow: int, period: int) returns (event: nat)
      requires Valid()
      modifies `events, `inserted, `bodies
      ensures Valid() && event == |old(bodies)|
      ensures Timing() == Applied(old(Timing()), Request.SchedulePeriodic(code, initialFromNow, period))
    {
      event := |bodies|;
      bodies := bodies + [Body(code, Some(period), false)];
      InsertEvent(now + initialFromNow, event);
    }

    method Cancel(event: nat)
      requires Valid()
      modifies `bodies
      ensures Valid() && Timing() == Applied(old(Timing()), Request.Cancel(event))
    {
      if event < |bodies| {
        bodies := bodies[event := bodies[event].(canceled := true)];
      }
    }

    method ChangePeriod(event: nat, period: int)
      requires Valid()
      modifies `bodies
      ensures Valid() && Timing() == Applied(old(Timing()), Request.ChangePeriod(event, period))
    {
      if event < |bodies| {
        if bodies[event].period == None {
          return;
        }
        bodies := bodies[event := bodies[event].(period := Some(period))];
      }
    }

    method Stop()
      requires Valid()
      modifies `stopped
      ensures Valid() && Timing() == Applied(old(Timing()), Request.Stop)
    {
      stopped := true;
    }

    /** Event::isCanceled: a handle is weak, so it also answers true once the body is gone. */
    method IsCanceled(event: nat) returns (canceled: bool)
      requires Valid()
      ensures canceled <==>
        (event < |bodies| && (exists e :: e in events && e.body == event) ==> bodies[event].canceled)
    {
      var alive := false;
      for n := 0 to |events|
        invariant alive <==> exists i :: 0 <= i < n && events[i].body == event
      {
        if events[n].body == event {
          alive := true;
        }
      }
      canceled := if alive then bodies[event].canceled else true;
    }

    /** Calling a body and putting it back into the queue when it has a period. */
    method Call(head: Entry)
      requires Valid() && head.body < |bodies| && now == head.time
      modifies `events, `inserted, `bodies, `stopped, `world
      ensures Valid() && |events| >= |old(events)|
      ensures var (w, rs) := program(old(world), old(Timing()), head.body);
        world == w && Timing() == AfterCall(old(Timing()), head, rs)
    {
      RunBody(head);
      if bodies[head.body].period.Some? {
        InsertEvent(now + bodies[head.body].period.value, head.body);
      }
    }

    /** Running a body: the callback's requests arrive one by one. */
    method RunBody(head: Entry)
      requires Valid() && head.body < |bodies|
      modifies `events, `inserted, `bodies, `stopped, `world
      ensures Valid()
      ensures var (w, rs) := program(old(world), old(Timing()), head.body);
        world == w && Timing() == AppliedAll(old(Timing()), rs)
    {
      var (w, requests) := program(world, Clock(now, events, bodies, inserted, stopped), head.body);
      world := w;
      var n := 0;
      while n < |requests|
        invariant n <= |requests| && Valid() && world == w
        invariant AppliedAll(Timing(), requests[n..]) == AppliedAll(old(Timing()), requests)
      {
        match requests[n] {
          case Schedule(code, delay) => var _ := Schedule(code, delay);
          case SchedulePeriodic(code, delay, period) => var _ := SchedulePeriodic(code, delay, period);
          case Cancel(h) => Cancel(h);
          case ChangePeriod(h, p) => ChangePeriod(h, p);
          case Stop => Stop();
        }
        assert requests[n..][1..] == requests[n + 1..];
        n := n + 1;
      }
    }

    /** One turn of the loop: the due event at the head of the queue. */
    method Advance()
      requires Valid() && events != []
      modifies this
      ensures Valid() && State() == Turn(program, old(State()))
      ensures runs - old(runs) == |trace| - |old(trace)|
      ensures |trace| >= |old(trace)|
    {
      var head := events[0];
      now := head.time;
      if !bodies[head.body].canceled {
        Call(head);
        runs := runs + 1;
        trace := trace + [head];
      }
      events := events[1..];
    }

    /** The loop of `simulate`, watched for at most `turns` turns. */
    method RunLoop(endSim: int, turns: nat) returns (returned: bool)
      requires Valid()
      modifies this
      ensures Valid() && |trace| - |old(trace)| == runs - old(runs)
      ensures (returned, State()) == Watched(program, old(State()), endSim, turns)
    {
      ghost var outcome := Watched(program, State(), endSim, turns);
      var turn := 0;
      while now <= endSim
        invariant Valid() && turn <= turns
        invariant Watched(program, State(), endSim, turns - turn) == outcome
        invariant |trace| - |old(trace)| == runs - old(runs)
        decreases turns - turn
      {
        if events == [] {
          break;
        }
        if events[0].time > endSim {
          break;
        }
        if stopped {
          return true;
        }
        if turn == turns {
          return false;
        }
        assert Continues(Timing(), endSim);
        Advance();
        turn := turn + 1;
      }
      assert !Due(Timing(), endSim);
      now := endSim;
      return true;
    }

    /** A call of `simulate`, watched for at most `turns` turns of its loop: either it has returned by then,
        or it is at work in the state the loop has reached (see WatchedIs). */
    method Simulate(duration: int, turns: nat) returns (returned: bool, result: nat)
      requires Valid()
      modifies this
      ensures Valid() && |trace| == |old(trace)| + result
      ensures (returned, State()) == Watched(program, old(State()), old(now) + duration, turns)
    {
      runs := 0;
      returned := RunLoop(now + duration, turns);
      result := runs;
    }
  }
}
