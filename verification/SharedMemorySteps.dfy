// Model of src/Utilities/IPC/detail/SharedMemoryPublisherImpl.cpp and SharedMemorySubscriptionImpl.cpp:
// one publisher writes packets into a slot of shared memory under the exclusive side of a mutex, any
// number of listeners copy the slot under its shared side once a condition has woken them. Every lock
// operation, every byte written or copied and every test of a flag is one step.

module SharedMemorySteps {
  import opened Bytes

  type Packet = seq<Octet>

  datatype WriterPc =
    | Free
    | ToWrite(packet: Packet)               // inside `publish`, about to take the mutex
    | Sizing(packet: Packet)                // mutex held from here ...
    | Writing(packet: Packet, k: nat)
    | Notifying(packet: Packet)
    | Releasing                             // ... to here
    | ToClose                               // inside `teardown`, about to take the mutex
    | Closing                               // mutex held from here ...
    | NotifyingClosed
    | ReleasingClosed                       // ... to here
    | Gone

  predicate Writes(pc: WriterPc) {
    pc.Sizing? || pc.Writing? || pc.Notifying? || pc.Releasing? || pc.Closing? || pc.NotifyingClosed?
    || pc.ReleasingClosed?
  }

  datatype ListenerPc =
    | Entering       // about to take the mutex, shared
    | Testing        // mutex held; about to test the loop's condition
    | Waiting        // inside the condition's wait
    | Notified       // woken, not yet holding the mutex again
    | TimedOut       // given up waiting, not yet holding the mutex again
    | Woken          // mutex held again; about to test `active`
    | Copying(k: nat)
    | Ended

  predicate Reads(pc: ListenerPc) {
    pc.Testing? || pc.Woken? || pc.Copying?
  }

  /** `delivered` is what the slot function has been called with, `seen` says for each of these packets
      how many had been published when it was copied. */
  datatype Listener = Listener(
    pc: ListenerPc, buffer: Packet, canceled: bool, delivered: seq<Packet>, seen: seq<nat>)

  datatype State = State(
    active: bool, size: nat, memory: Packet, writer: WriterPc, listeners: seq<Listener>, published: seq<Packet>)

  datatype Step =
    | Offer(packet: Packet)   // publish is called
    | Close                   // the publisher is destroyed
    | Write                   // its next step
    | Subscribe
    | Listen(i: nat)          // listener i's next step
    | TimeOut(i: nat)
    | Spurious(i: nat)
    | Cancel(i: nat)

  const FRESH_LISTENER := Listener(Entering, [], false, [], [])

  function Initial(memory: Packet): State {
    State(true, 0, memory, Free, [], [])
  }

  /** maxPacketSize: what the region has room for. */
  function MaxSize(s: State): nat {
    |s.memory|
  }

  predicate NobodyReads(listeners: seq<Listener>) {
    forall i :: 0 <= i < |listeners| ==> !Reads(listeners[i].pc)
  }

  function Woke(l: Listener): Listener {
    if l.pc.Waiting? then l.(pc := Notified) else l
  }

  /** notify_all. */
  function NotifyAll(listeners: seq<Listener>): (r: seq<Listener>)
    ensures |r| == |listeners|
    ensures forall i :: 0 <= i < |r| ==> r[i] == Woke(listeners[i])
  {
    seq(|listeners|, i requires 0 <= i < |listeners| => Woke(listeners[i]))
  }

  predicate CanWrite(s: State) {
    match s.writer
    case Free => false
    case Gone => false
    case ToWrite(_) => NobodyReads(s.listeners)
    case ToClose => NobodyReads(s.listeners)
    case Writing(packet, k) => k < |packet| ==> k < |s.memory|
    case _ => true
  }

  function NextWrite(s: State): State
    requires CanWrite(s)
  {
    match s.writer
    case ToWrite(packet) => s.(writer := Sizing(packet))
    case Sizing(packet) => s.(size := |packet|, writer := Writing(packet, 0))
    case Writing(packet, k) =>
      if k < |packet| then s.(memory := s.memory[k := packet[k]], writer := Writing(packet, k + 1))
      else s.(writer := Notifying(packet))
    case Notifying(packet) =>
      s.(listeners := NotifyAll(s.listeners), published := s.published + [packet], writer := Releasing)
    case Releasing => s.(writer := Free)
    case ToClose => s.(writer := Closing)
    case Closing => s.(active := false, writer := NotifyingClosed)
    case NotifyingClosed => s.(listeners := NotifyAll(s.listeners), writer := ReleasingClosed)
    case ReleasingClosed => s.(writer := Gone)
  }

  /** std::vector::resize: what is there stays, new bytes are zero. */
  function Resized(buffer: Packet, size: nat): (r: Packet)
    ensures |r| == size
  {
    if size <= |buffer| then buffer[..size] else buffer + seq(size - |buffer|, _ => 0)
  }

  predicate CanListen(s: State, l: Listener) {
    match l.pc
    case Entering => !Writes(s.writer)
    case Notified => !Writes(s.writer)
    case TimedOut => !Writes(s.writer)
    case Copying(k) => k < s.size ==> k < |l.buffer| && k < |s.memory|
    case Waiting => false
    case Ended => false
    case _ => true
  }

  function NextListen(s: State, l: Listener): Listener
    requires CanListen(s, l)
  {
    match l.pc
    case Entering => l.(pc := Testing)
    case Testing => l.(pc := if l.canceled then Ended else Waiting)
    case Notified => l.(pc := Woken)
    case TimedOut => l.(pc := Testing)
    case Woken => if s.active then l.(pc := Copying(0), buffer := Resized(l.buffer, s.size)) else l.(pc := Ended)
    case Copying(k) =>
      if k < s.size then l.(pc := Copying(k + 1), buffer := l.buffer[k := s.memory[k]])
      else l.(pc := Testing, delivered := l.delivered + [l.buffer], seen := l.seen + [|s.published|])
  }

  predicate Enabled(s: State, step: Step) {
    match step
    case Offer(_) => s.writer.Free?
    case Close => s.writer.Free?
    case Write => CanWrite(s)
    case Subscribe => true
    case Listen(i) => i < |s.listeners| && CanListen(s, s.listeners[i])
    case TimeOut(i) => i < |s.listeners| && s.listeners[i].pc.Waiting?
    case Spurious(i) => i < |s.listeners| && s.listeners[i].pc.Waiting?
    case Cancel(i) => i < |s.listeners|
  }

  /** A packet that does not fit is refused at once. */
  function Apply(s: State, step: Step): State
    requires Enabled(s, step)
  {
    match step
    case Offer(packet) => if |packet| > MaxSize(s) then s else s.(writer := ToWrite(packet))
    case Close => s.(writer := ToClose)
    case Write => NextWrite(s)
    case Subscribe => s.(listeners := s.listeners + [FRESH_LISTENER])
    case Listen(i) => s.(listeners := s.listeners[i := NextListen(s, s.listeners[i])])
    case TimeOut(i) => s.(listeners := s.listeners[i := s.listeners[i].(pc := TimedOut)])
    case Spurious(i) => s.(listeners := s.listeners[i := s.listeners[i].(pc := Notified)])
    case Cancel(i) => s.(listeners := s.listeners[i := s.listeners[i].(canceled := true)])
  }

  /** Every step of the list is enabled when its turn comes. */
  predicate Possible(s: State, steps: seq<Step>)
    decreases steps
  {
    steps == [] || (Enabled(s, steps[0]) && Possible(Apply(s, steps[0]), steps[1..]))
  }

  function After(s: State, steps: seq<Step>): State
    requires Possible(s, steps)
    decreases steps
  {
    if steps == [] then s else After(Apply(s, steps[0]), steps[1..])
  }

  lemma {:induction false} AfterMore(s: State, steps: seq<Step>, more: seq<Step>)
    requires Possible(s, steps) && Possible(After(s, steps), more)
    ensures Possible(s, steps + more) && After(s, steps + more) == After(After(s, steps), more)
    decreases steps
  {
    if steps == [] {
      assert steps + more == more;
    } else {
      var all := steps + more;
      assert all[0] == steps[0] && all[1..] == steps[1..] + more;
      var u := Apply(s, steps[0]);
      AfterMore(u, steps[1..], more);
      assert Possible(s, all) && After(s, all) == After(u, all[1..]);
    }
  }

  lemma AfterOne(s: State, steps: seq<Step>, step: Step)
    requires Possible(s, steps) && Enabled(After(s, steps), step)
    ensures Possible(s, steps + [step]) && After(s, steps + [step]) == Apply(After(s, steps), step)
  {
    assert [step][1..] == [];
    AfterMore(s, steps, [step]);
  }
}
