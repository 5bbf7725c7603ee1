// What the shared-memory channel promises over every interleaving of the publisher and its listeners.

module SharedMemoryTheorems {
  import opened SharedMemorySteps

  // ----- the invariant

  /** The packet in the slot after n publications; before the first the slot is empty. */
  function Nth(published: seq<Packet>, n: nat): Packet
    requires n <= |published|
  {
    if n == 0 then [] else published[n - 1]
  }

  predicate SlotHolds(s: State, packet: Packet) {
    |packet| == s.size <= |s.memory| && s.memory[..s.size] == packet
  }

  predicate WriterOk(s: State) {
    && (Writes(s.writer) ==> NobodyReads(s.listeners))
    && (s.active <==> !(s.writer.NotifyingClosed? || s.writer.ReleasingClosed? || s.writer.Gone?))
    && match s.writer
       case Writing(packet, k) =>
         |packet| == s.size <= |s.memory| && k <= |packet| && s.memory[..k] == packet[..k]
       case Notifying(packet) => SlotHolds(s, packet)
       case ToWrite(packet) => |packet| <= |s.memory| && SlotHolds(s, Nth(s.published, |s.published|))
       case Sizing(packet) => |packet| <= |s.memory| && SlotHolds(s, Nth(s.published, |s.published|))
       case _ => SlotHolds(s, Nth(s.published, |s.published|))
  }

  predicate NonDecreasing(seen: seq<nat>) {
    forall a, b :: 0 <= a < b < |seen| ==> seen[a] <= seen[b]
  }

  /** Every packet delivered is, in full, what the slot held after as many publications as noted. */
  predicate HistoryOk(l: Listener, published: seq<Packet>) {
    && |l.delivered| == |l.seen| && NonDecreasing(l.seen)
    && forall k :: 0 <= k < |l.seen| ==>
         l.seen[k] <= |published| && l.delivered[k] == Nth(published, l.seen[k])
  }

  predicate CopyOk(l: Listener, size: nat, memory: Packet) {
    l.pc.Copying? ==> l.pc.k <= size == |l.buffer| && size <= |memory| && l.buffer[..l.pc.k] == memory[..l.pc.k]
  }

  predicate ListenersOk(s: State) {
    forall i :: 0 <= i < |s.listeners| ==>
      && HistoryOk(s.listeners[i], s.published)
      && CopyOk(s.listeners[i], s.size, s.memory)
      && (s.listeners[i].pc.Copying? ==> s.active)
  }

  predicate Inv(s: State) {
    WriterOk(s) && ListenersOk(s)
  }

  lemma InitialInv(memory: Packet)
    ensures Inv(Initial(memory))
  {
  }

  // ----- the steps of the publisher

  lemma MorePublished(l: Listener, published: seq<Packet>, packet: Packet)
    requires HistoryOk(l, published)
    ensures HistoryOk(l, published + [packet])
  {
  }

  lemma SlotSteps(s: State)
    requires WriterOk(s) && CanWrite(s)
    ensures WriterOk(NextWrite(s))
  {
    var u := NextWrite(s);
    match s.writer {
      case Writing(packet, k) =>
        if k < |packet| {
          assert u.memory[..k + 1] == s.memory[..k] + [packet[k]] == packet[..k + 1];
        } else {
          assert packet[..k] == packet;
        }
      case Notifying(packet) => assert u.published[|u.published| - 1] == packet;
      case _ =>
    }
  }

  lemma WriteKeepsListeners(s: State)
    requires Inv(s) && CanWrite(s)
    ensures ListenersOk(NextWrite(s))
  {
    var u := NextWrite(s);
    forall i | 0 <= i < |u.listeners|
      ensures HistoryOk(u.listeners[i], u.published) && CopyOk(u.listeners[i], u.size, u.memory)
      ensures u.listeners[i].pc.Copying? ==> u.active
    {
      var l := s.listeners[i];
      assert HistoryOk(l, s.published) && CopyOk(l, s.size, s.memory);
      if s.writer.Notifying? {
        MorePublished(l, s.published, s.writer.packet);
      }
      assert Writes(s.writer) ==> !Reads(l.pc);
    }
  }

  // ----- the steps of a listener

  lemma DeliverOk(s: State, l: Listener)
    requires WriterOk(s) && HistoryOk(l, s.published) && CopyOk(l, s.size, s.memory)
    requires l.pc.Copying? && l.pc.k == s.size && !Writes(s.writer)
    ensures HistoryOk(l.(delivered := l.delivered + [l.buffer], seen := l.seen + [|s.published|]), s.published)
  {
    assert l.buffer == l.buffer[..s.size] == s.memory[..s.size] == Nth(s.published, |s.published|);
  }

  lemma ListenKeepsListener(s: State, l: Listener)
    requires WriterOk(s) && HistoryOk(l, s.published) && CopyOk(l, s.size, s.memory)
    requires CanListen(s, l) && (Reads(l.pc) ==> !Writes(s.writer)) && (l.pc.Copying? ==> s.active)
    ensures var u := NextListen(s, l);
      && HistoryOk(u, s.published) && CopyOk(u, s.size, s.memory)
      && (u.pc.Copying? ==> s.active) && (Reads(u.pc) ==> !Writes(s.writer))
  {
    var u := NextListen(s, l);
    if l.pc.Copying? {
      var k := l.pc.k;
      if k < s.size {
        assert u.buffer[..k + 1] == l.buffer[..k] + [s.memory[k]] == s.memory[..k + 1];
      } else {
        DeliverOk(s, l);
      }
    }
  }

  /** One listener changes: on its own account, or because a handle or the clock acts on it. */
  lemma ListenerChange(s: State, i: nat, l: Listener)
    requires Inv(s) && i < |s.listeners|
    requires HistoryOk(l, s.published) && CopyOk(l, s.size, s.memory)
    requires (l.pc.Copying? ==> s.active) && (Reads(l.pc) ==> !Writes(s.writer))
    ensures Inv(s.(listeners := s.listeners[i := l]))
  {
  }

  lemma StepKeepsInv(s: State, step: Step)
    requires Inv(s) && Enabled(s, step)
    ensures Inv(Apply(s, step))
  {
    match step
    case Offer(_) =>
    case Close =>
    case Write =>
      SlotSteps(s);
      WriteKeepsListeners(s);
    case Subscribe =>
    case Listen(i) =>
      ListenKeepsListener(s, s.listeners[i]);
      ListenerChange(s, i, NextListen(s, s.listeners[i]));
    case TimeOut(i) => ListenerChange(s, i, s.listeners[i].(pc := TimedOut));
    case Spurious(i) => ListenerChange(s, i, s.listeners[i].(pc := Notified));
    case Cancel(i) => ListenerChange(s, i, s.listeners[i].(canceled := true));
  }

  lemma {:induction false} RunKeepsInv(s: State, steps: seq<Step>)
    requires Inv(s) && Possible(s, steps)
    ensures Inv(After(s, steps))
    decreases steps
  {
    if steps == [] {
    } else {
      StepKeepsInv(s, steps[0]);
      RunKeepsInv(Apply(s, steps[0]), steps[1..]);
    }
  }

  // ----- what the listeners get

  /** No packet is torn: whatever the interleaving, and even with spurious wakeups, each packet delivered
      is in full the one that was published last when it was copied, or the empty slot if there was none;
      and no listener ever goes back to an earlier one. */
  lemma NoTornPackets(memory: Packet, steps: seq<Step>, i: nat)
    requires Possible(Initial(memory), steps) && i < |After(Initial(memory), steps).listeners|
    ensures var s := After(Initial(memory), steps); var l := s.listeners[i];
      && |l.delivered| == |l.seen| && NonDecreasing(l.seen)
      && forall k :: 0 <= k < |l.seen| ==>
           l.seen[k] <= |s.published| && l.delivered[k] == Nth(s.published, l.seen[k])
  {
    InitialInv(memory);
    RunKeepsInv(Initial(memory), steps);
    var s := After(Initial(memory), steps);
    assert HistoryOk(s.listeners[i], s.published);
  }

  /** The packet of a call of `publish` that returns true: one that fits. */
  function AcceptedBy(step: Step, max: nat): seq<Packet> {
    if step.Offer? && |step.packet| <= max then [step.packet] else []
  }

  function Accepted(steps: seq<Step>, max: nat): seq<Packet> {
    if steps == [] then [] else AcceptedBy(steps[0], max) + Accepted(steps[1..], max)
  }

  /** The packet of a call of `publish` that is still under way. */
  function UnderWay(writer: WriterPc): seq<Packet> {
    match writer
    case ToWrite(packet) => [packet]
    case Sizing(packet) => [packet]
    case Writing(packet, _) => [packet]
    case Notifying(packet) => [packet]
    case _ => []
  }

  /** Everything accepted so far. */
  function Handed(s: State): seq<Packet> {
    s.published + UnderWay(s.writer)
  }

  lemma StepAccepts(s: State, step: Step)
    requires Enabled(s, step)
    ensures |Apply(s, step).memory| == |s.memory|
    ensures Handed(Apply(s, step)) == Handed(s) + AcceptedBy(step, |s.memory|)
  {
  }

  lemma Regroup(a: seq<Packet>, b: seq<Packet>, c: seq<Packet>)
    ensures (a + b) + c == a + (b + c)
  {
  }

  /** Exactly the packets accepted are published, in order; at most the last is still under way. */
  lemma {:induction false} AcceptedArePublished(s: State, steps: seq<Step>)
    requires Possible(s, steps)
    ensures Handed(After(s, steps)) == Handed(s) + Accepted(steps, |s.memory|)
    decreases steps
  {
    if steps == [] {
      assert Handed(s) + [] == Handed(s);
    } else {
      var now, later := AcceptedBy(steps[0], |s.memory|), Accepted(steps[1..], |s.memory|);
      StepAccepts(s, steps[0]);
      AcceptedArePublished(Apply(s, steps[0]), steps[1..]);
      Regroup(Handed(s), now, later);
      assert Accepted(steps, |s.memory|) == now + later;
    }
  }

  /** Neither side ever reaches beyond the region: the next byte to write, and the next to copy, is in it
      and has its place in the listener's buffer. */
  lemma StaysInTheRegion(s: State, i: nat)
    requires Inv(s) && i < |s.listeners|
    ensures s.writer.Writing? ==> CanWrite(s)
    ensures s.listeners[i].pc.Copying? ==> CanListen(s, s.listeners[i]) && !Writes(s.writer)
  {
    assert CopyOk(s.listeners[i], s.size, s.memory);
  }

  // ----- how long a call of publish takes

  /** A step of a listener, of its owner or of the clock. */
  predicate FromOutside(step: Step) {
    step.Subscribe? || step.Listen? || step.TimeOut? || step.Spurious? || step.Cancel?
  }

  predicate Publishing(writer: WriterPc) {
    writer.ToWrite? || writer.Sizing? || writer.Writing? || writer.Notifying? || writer.Releasing?
  }

  /** How many steps of `publish` are left. */
  function WriterLeft(writer: WriterPc): nat {
    match writer
    case ToWrite(packet) => |packet| + 5
    case Sizing(packet) => |packet| + 4
    case Writing(packet, k) => (if k < |packet| then |packet| - k else 0) + 3
    case Notifying(_) => 2
    case Releasing => 1
    case _ => 0
  }

  /** How many steps a listener makes before it releases the mutex. */
  function ReaderLeft(pc: ListenerPc, size: nat): nat {
    match pc
    case Testing => 1
    case Woken => size + 3
    case Copying(k) => (if k < size then size - k else 0) + 2
    case _ => 0
  }

  function AllReadersLeft(listeners: seq<Listener>, size: nat): nat {
    if listeners == [] then 0 else ReaderLeft(listeners[0].pc, size) + AllReadersLeft(listeners[1..], size)
  }

  function ReadersLeft(s: State): nat {
    AllReadersLeft(s.listeners, s.size)
  }

  lemma {:induction false} ReadersLeftUpdate(listeners: seq<Listener>, size: nat, i: nat, l: Listener)
    requires i < |listeners|
    ensures AllReadersLeft(listeners[i := l], size) + ReaderLeft(listeners[i].pc, size)
         == AllReadersLeft(listeners, size) + ReaderLeft(l.pc, size)
  {
    if i == 0 {
      assert listeners[i := l][1..] == listeners[1..];
    } else {
      ReadersLeftUpdate(listeners[1..], size, i - 1, l);
      assert listeners[i := l][1..] == listeners[1..][i - 1 := l];
    }
  }

  lemma ReaderGoesOn(s: State, i: nat)
    requires i < |s.listeners| && Reads(s.listeners[i].pc) && CanListen(s, s.listeners[i])
    ensures ReadersLeft(Apply(s, Listen(i))) < ReadersLeft(s)
    ensures Apply(s, Listen(i)).writer == s.writer
  {
    ReadersLeftUpdate(s.listeners, s.size, i, NextListen(s, s.listeners[i]));
  }

  lemma WritesOn(s: State)
    requires WriterOk(s) && Publishing(s.writer) && (s.writer.ToWrite? ==> NobodyReads(s.listeners))
    ensures CanWrite(s)
    ensures var u := NextWrite(s).writer;
      WriterLeft(u) < WriterLeft(s.writer) && (u.Free? || Publishing(u))
  {
  }

  /** From s0 to s one call of `publish` is under way or just over: nothing but its packet has been handed
      in, and the bytes behind that are untouched. */
  predicate Carries(s0: State, s: State, packet: Packet) {
    && (s.writer.Free? || Publishing(s.writer))
    && Handed(s) == s0.published + [packet]
    && (UnderWay(s.writer) == [] || UnderWay(s.writer) == [packet])
    && |packet| <= |s.memory| == |s0.memory| && s.memory[|packet|..] == s0.memory[|packet|..]
  }

  lemma CarriesOn(s0: State, s: State, step: Step, packet: Packet)
    requires Carries(s0, s, packet) && Enabled(s, step)
    requires FromOutside(step) || (step.Write? && Publishing(s.writer))
    ensures Carries(s0, Apply(s, step), packet)
  {
    StepAccepts(s, step);
    assert [packet][0] == packet;
    if step.Write? && s.writer.Writing? {
      assert UnderWay(s.writer)[0] == packet;
    }
  }

  lemma Carried(s0: State, s: State, packet: Packet)
    requires WriterOk(s) && Carries(s0, s, packet) && s.writer.Free?
    ensures s.published == s0.published + [packet] && SlotHolds(s, packet)
  {
    assert s.published + [] == s.published;
    assert s.published[|s.published| - 1] == packet;
  }

  /** No listener has done anything since s0. */
  predicate Undisturbed(s0: State, s: State) {
    && NobodyReads(s.listeners)
    && s.listeners == (if s.writer.Free? || s.writer.Releasing? then NotifyAll(s0.listeners) else s0.listeners)
  }

  lemma UndisturbedOn(s0: State, s: State)
    requires Undisturbed(s0, s) && Publishing(s.writer) && CanWrite(s)
    ensures Undisturbed(s0, NextWrite(s))
  {
  }

  // ----- the end of the channel

  predicate Spares(step: Step, i: nat) {
    step != Cancel(i) && step != Spurious(i)
  }

  predicate LeftAlone(steps: seq<Step>, i: nat) {
    forall k :: 0 <= k < |steps| ==> Spares(steps[k], i)
  }

  /** The publisher is gone and its last notification has not reached this listener. */
  predicate Missed(s: State, i: nat) {
    && s.writer.Gone? && i < |s.listeners| && !s.listeners[i].canceled
    && (s.listeners[i].pc.Entering? || s.listeners[i].pc.Testing? || s.listeners[i].pc.Waiting?
        || s.listeners[i].pc.TimedOut?)
  }

  predicate Heard(s: State, i: nat) {
    && s.writer.Gone? && i < |s.listeners|
    && (s.listeners[i].pc.Notified? || s.listeners[i].pc.Woken? || s.listeners[i].pc.Ended?)
  }

  function ToEnd(pc: ListenerPc): nat {
    if pc.Notified? then 2 else if pc.Woken? then 1 else 0
  }

  function Turns(steps: seq<Step>, i: nat): nat {
    if steps == [] then 0 else (if steps[0] == Listen(i) then 1 else 0) + Turns(steps[1..], i)
  }

  /** A listener that has heard the last notification ends, with its next two steps and without another
      packet. */
  lemma {:induction false} HeardEnds(s: State, i: nat, steps: seq<Step>)
    requires Inv(s) && Heard(s, i) && Possible(s, steps)
    ensures var u := After(s, steps);
      && Heard(u, i) && u.listeners[i].delivered == s.listeners[i].delivered
      && (u.listeners[i].pc.Ended? <==> Turns(steps, i) == ToEnd(s.listeners[i].pc))
      && Turns(steps, i) <= ToEnd(s.listeners[i].pc)
    decreases steps
  {
    if steps == [] {
    } else {
      StepKeepsInv(s, steps[0]);
      HeardEnds(Apply(s, steps[0]), i, steps[1..]);
    }
  }

  /** One that has missed it keeps running for ever, unless it is cancelled or wakes up for no reason: its
      timeouts never make it look at `active`. */
  lemma {:induction false} MissedNeverEnds(s: State, i: nat, steps: seq<Step>)
    requires Missed(s, i) && Possible(s, steps) && LeftAlone(steps, i)
    ensures Missed(After(s, steps), i)
    decreases steps
  {
    if steps == [] {
    } else {
      assert Spares(steps[0], i);
      assert forall k :: 0 <= k < |steps[1..]| ==> steps[1..][k] == steps[k + 1];
      MissedNeverEnds(Apply(s, steps[0]), i, steps[1..]);
    }
  }

  /** Those are all the listeners there are. */
  lemma HeardOrMissed(s: State, i: nat)
    requires Inv(s) && s.writer.Gone? && i < |s.listeners| && !s.listeners[i].canceled
    ensures Heard(s, i) <==> !Missed(s, i)
  {
    assert CopyOk(s.listeners[i], s.size, s.memory);
  }

  /** The publisher, about to send its last notification, is not going to reach this listener. */
  predicate OutOfReach(s: State, i: nat) {
    i < |s.listeners| ==> s.listeners[i].pc.Entering? || s.listeners[i].pc.TimedOut?
  }

  predicate LeavingState(s: State) {
    !s.active && (s.writer.ReleasingClosed? || s.writer.Gone?)
  }

  /** On the way from the last notification to the end of the publisher. */
  predicate WillMiss(s: State, i: nat) {
    && LeavingState(s)
    && (i < |s.listeners| ==>
          !s.listeners[i].canceled && (if s.writer.Gone? then Missed(s, i) else OutOfReach(s, i)))
  }

  predicate WillHear(s: State, i: nat) {
    && LeavingState(s) && i < |s.listeners|
    && (s.listeners[i].pc.Notified? || s.listeners[i].pc.Woken? || s.listeners[i].pc.Ended?)
  }

  lemma {:induction false} StillMisses(s: State, i: nat, steps: seq<Step>)
    requires WillMiss(s, i) && Possible(s, steps) && LeftAlone(steps, i)
    ensures WillMiss(After(s, steps), i)
    decreases steps
  {
    if steps == [] {
    } else {
      assert Spares(steps[0], i);
      assert forall k :: 0 <= k < |steps[1..]| ==> steps[1..][k] == steps[k + 1];
      StillMisses(Apply(s, steps[0]), i, steps[1..]);
    }
  }

  lemma {:induction false} StillHears(s: State, i: nat, steps: seq<Step>)
    requires WillHear(s, i) && Possible(s, steps)
    ensures WillHear(After(s, steps), i)
    decreases steps
  {
    if steps == [] {
    } else {
      StillHears(Apply(s, steps[0]), i, steps[1..]);
    }
  }

  /** The exact condition: when the publisher is gone, a listener that is not cancelled has missed its last
      notification if and only if, as that was sent, it was between waits, by a timeout or because it had
      just started, or had not started yet. */
  lemma MissedExactly(s: State, i: nat, rest: seq<Step>)
    requires Inv(s) && s.writer.NotifyingClosed? && (i < |s.listeners| ==> !s.listeners[i].canceled)
    requires Possible(Apply(s, Write), rest) && LeftAlone(rest, i)
    requires var u := After(Apply(s, Write), rest); u.writer.Gone? && i < |u.listeners|
    ensures Missed(After(Apply(s, Write), rest), i) <==> OutOfReach(s, i)
  {
    var t := Apply(s, Write);
    if OutOfReach(s, i) {
      StillMisses(t, i, rest);
    } else {
      assert !Reads(s.listeners[i].pc);
      StillHears(t, i, rest);
    }
  }

  // ----- runs that show it

  /** Nothing published, one listener. */
  function OneListener(memory: Packet, writer: WriterPc, active: bool, pc: ListenerPc): State {
    State(active, 0, memory, writer, [FRESH_LISTENER.(pc := pc)], [])
  }

  lemma Extended(memory: Packet, steps: seq<Step>, s: State, step: Step, t: State) returns (more: seq<Step>)
    requires Possible(Initial(memory), steps) && After(Initial(memory), steps) == s
    requires Enabled(s, step) && Apply(s, step) == t
    ensures more == steps + [step] && Possible(Initial(memory), more) && After(Initial(memory), more) == t
  {
    AfterOne(Initial(memory), steps, step);
    more := steps + [step];
  }

  lemma ListenerMoves(memory: Packet, writer: WriterPc, active: bool, a: ListenerPc, b: ListenerPc)
    ensures OneListener(memory, writer, active, a).listeners[0 := FRESH_LISTENER.(pc := b)]
         == OneListener(memory, writer, active, b).listeners
  {
  }

  /** A first listener starts and waits. */
  lemma StartsWaiting(memory: Packet) returns (steps: seq<Step>)
    ensures Possible(Initial(memory), steps)
    ensures After(Initial(memory), steps) == OneListener(memory, Free, true, Waiting)
  {
    assert [] + [FRESH_LISTENER] == [FRESH_LISTENER.(pc := Entering)];
    steps := Extended(memory, [], Initial(memory), Subscribe, OneListener(memory, Free, true, Entering));
    ListenerMoves(memory, Free, true, Entering, Testing);
    steps := Extended(memory, steps, OneListener(memory, Free, true, Entering), Listen(0),
                      OneListener(memory, Free, true, Testing));
    ListenerMoves(memory, Free, true, Testing, Waiting);
    steps := Extended(memory, steps, OneListener(memory, Free, true, Testing), Listen(0),
                      OneListener(memory, Free, true, Waiting));
  }

  lemma TeardownStep(memory: Packet, steps: seq<Step>, w: WriterPc, a: bool, step: Step, v: WriterPc, b: bool)
    returns (more: seq<Step>)
    requires Possible(Initial(memory), steps)
    requires After(Initial(memory), steps) == OneListener(memory, w, a, TimedOut)
    requires || (w == Free && step == Close && v == ToClose && b == a)
             || (w == ToClose && step == Write && v == Closing && b == a)
             || (w == Closing && step == Write && v == NotifyingClosed && !b)
             || (w == NotifyingClosed && step == Write && v == ReleasingClosed && b == a)
             || (w == ReleasingClosed && step == Write && v == Gone && b == a)
    ensures Possible(Initial(memory), more)
    ensures After(Initial(memory), more) == OneListener(memory, v, b, TimedOut)
  {
    var s := OneListener(memory, w, a, TimedOut);
    assert NotifyAll(s.listeners) == s.listeners;
    more := Extended(memory, steps, s, step, OneListener(memory, v, b, TimedOut));
  }

  /** A listener whose first wait times out just before the teardown misses it. */
  lemma TimeoutMissesTeardown(memory: Packet) returns (steps: seq<Step>)
    ensures Possible(Initial(memory), steps) && Missed(After(Initial(memory), steps), 0)
  {
    steps := StartsWaiting(memory);
    ListenerMoves(memory, Free, true, Waiting, TimedOut);
    steps := Extended(memory, steps, OneListener(memory, Free, true, Waiting), TimeOut(0),
                      OneListener(memory, Free, true, TimedOut));
    steps := TeardownStep(memory, steps, Free, true, Close, ToClose, true);
    steps := TeardownStep(memory, steps, ToClose, true, Write, Closing, true);
    steps := TeardownStep(memory, steps, Closing, true, Write, NotifyingClosed, false);
    steps := TeardownStep(memory, steps, NotifyingClosed, false, Write, ReleasingClosed, false);
    steps := TeardownStep(memory, steps, ReleasingClosed, false, Write, Gone, false);
  }

  /** Before anything has been published, a spurious wakeup makes a listener deliver an empty packet that
      nobody has published. */
  lemma SpuriousWakeupDelivers(memory: Packet) returns (steps: seq<Step>)
    ensures Possible(Initial(memory), steps)
    ensures var s := After(Initial(memory), steps);
      s.published == [] && |s.listeners| == 1 && s.listeners[0].delivered == [[]]
  {
    steps := StartsWaiting(memory);
    ListenerMoves(memory, Free, true, Waiting, Notified);
    steps := Extended(memory, steps, OneListener(memory, Free, true, Waiting), Spurious(0),
                      OneListener(memory, Free, true, Notified));
    ListenerMoves(memory, Free, true, Notified, Woken);
    steps := Extended(memory, steps, OneListener(memory, Free, true, Notified), Listen(0),
                      OneListener(memory, Free, true, Woken));
    steps := DeliversNothing(memory, steps);
  }

  lemma DeliversNothing(memory: Packet, steps: seq<Step>) returns (more: seq<Step>)
    requires Possible(Initial(memory), steps)
    requires After(Initial(memory), steps) == OneListener(memory, Free, true, Woken)
    ensures Possible(Initial(memory), more)
    ensures var s := After(Initial(memory), more);
      s.published == [] && |s.listeners| == 1 && s.listeners[0].delivered == [[]]
  {
    var s := OneListener(memory, Free, true, Woken);
    assert s.listeners[0].buffer == [] && Resized([], 0) == [];
    ListenerMoves(memory, Free, true, Woken, Copying(0));
    more := Extended(memory, steps, s, Listen(0), OneListener(memory, Free, true, Copying(0)));
    var t := Apply(OneListener(memory, Free, true, Copying(0)), Listen(0));
    assert t.listeners[0].delivered == [] + [[]] == [[]];
    more := Extended(memory, more, OneListener(memory, Free, true, Copying(0)), Listen(0), t);
  }
}
