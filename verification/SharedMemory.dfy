// The region of shared memory of src/Utilities/IPC/detail/SharedMemoryPublisherImpl.cpp and
// SharedMemorySubscriptionImpl.cpp as an object: its methods change it in place and are proved against
// the steps they stand for.

module SharedMemory {
  import opened Bytes
  import opened SharedMemorySteps
  import opened SharedMemoryTheorems

  class MessageObject {
    var active: bool
    var packetSize: nat
    const memory: array<Octet>
    var writer: WriterPc
    var listeners: seq<Listener>
    var published: seq<Packet>   // history: the slot holds only the last

    ghost function Snapshot(): State
      reads this, memory
    {
      State(active, packetSize, memory[..], writer, listeners, published)
    }

    constructor (maxPacketSize: nat)
      ensures fresh(memory) && memory.Length == maxPacketSize
      ensures Snapshot() == Initial(memory[..])
    {
      memory := new Octet[maxPacketSize](_ => 0);
      active, packetSize, writer, listeners, published := true, 0, Free, [], [];
    }

    /** The test at the start of `publish`. */
    method Begin(packet: Packet) returns (fits: bool)
      requires writer.Free?
      modifies `writer
      ensures fits <==> |packet| <= memory.Length
      ensures Snapshot() == Apply(old(Snapshot()), Offer(packet))
    {
      if |packet| > memory.Length {
        return false;
      }
      writer := ToWrite(packet);
      return true;
    }

    method NotifyWaiting()
      modifies `listeners
      ensures listeners == NotifyAll(old(listeners))
    {
      var k := 0;
      while k < |listeners|
        invariant k <= |listeners| == |old(listeners)|
        invariant forall i :: 0 <= i < k ==> listeners[i] == Woke(old(listeners)[i])
        invariant forall i :: k <= i < |listeners| ==> listeners[i] == old(listeners)[i]
      {
        listeners := listeners[k := Woke(listeners[k])];
        k := k + 1;
      }
    }

    /** One step of `publish` or `teardown`. */
    method WriteStep()
      requires Enabled(Snapshot(), Write)
      modifies this, memory
      ensures Snapshot() == Apply(old(Snapshot()), Write)
    {
      match writer {
        case ToWrite(packet) => writer := Sizing(packet);
        case Sizing(packet) => packetSize, writer := |packet|, Writing(packet, 0);
        case Writing(packet, k) =>
          if k < |packet| {
            memory[k] := packet[k];
            writer := Writing(packet, k + 1);
          } else {
            writer := Notifying(packet);
          }
        case Notifying(packet) =>
          NotifyWaiting();
          published := published + [packet];
          writer := Releasing;
        case Releasing => writer := Free;
        case ToClose => writer := Closing;
        case Closing => active, writer := false, NotifyingClosed;
        case NotifyingClosed =>
          NotifyWaiting();
          writer := ReleasingClosed;
        case ReleasingClosed => writer := Gone;
      }
    }

    /** One step of the listener loop `onSharedMemory`. */
    method ListenStep(i: nat)
      requires Enabled(Snapshot(), Listen(i))
      modifies `listeners
      ensures Snapshot() == Apply(old(Snapshot()), Listen(i))
    {
      var l := listeners[i];
      match l.pc {
        case Entering => l := l.(pc := Testing);
        case Testing =>
          if !l.canceled {
            l := l.(pc := Waiting);
          } else {
            l := l.(pc := Ended);
          }
        case Notified => l := l.(pc := Woken);
        case TimedOut => l := l.(pc := Testing);
        case Woken =>
          if !active {
            l := l.(pc := Ended);
          } else {
            l := l.(buffer := Resized(l.buffer, packetSize), pc := Copying(0));
          }
        case Copying(k) =>
          if k < packetSize {
            l := l.(buffer := l.buffer[k := memory[k]], pc := Copying(k + 1));
          } else {
            l := l.(delivered := l.delivered + [l.buffer], seen := l.seen + [|published|], pc := Testing);
          }
      }
      listeners := listeners[i := l];
    }

    /** `start`: a new listener thread. */
    method Start() returns (i: nat)
      modifies `listeners
      ensures i == |old(listeners)| && Snapshot() == Apply(old(Snapshot()), Subscribe)
    {
      i := |listeners|;
      listeners := listeners + [FRESH_LISTENER];
    }

    method CancelListener(i: nat)
      requires Enabled(Snapshot(), Cancel(i))
      modifies `listeners
      ensures Snapshot() == Apply(old(Snapshot()), Cancel(i))
    {
      listeners := listeners[i := listeners[i].(canceled := true)];
    }

    /** A wait that ends without a notification: by its timeout or for no reason. */
    method LeaveWait(i: nat, timeout: bool)
      requires Enabled(Snapshot(), if timeout then TimeOut(i) else Spurious(i))
      modifies `listeners
      ensures Snapshot() == Apply(old(Snapshot()), if timeout then TimeOut(i) else Spurious(i))
    {
      listeners := listeners[i := listeners[i].(pc := if timeout then TimedOut else Notified)];
    }

    /** A step of a listener, of its owner or of the clock, if it is possible. */
    method TryFromOutside(step: Step) returns (taken: bool)
      modifies `listeners
      ensures taken ==> Enabled(old(Snapshot()), step) && FromOutside(step)
                        && Snapshot() == Apply(old(Snapshot()), step)
      ensures !taken ==> Snapshot() == old(Snapshot())
    {
      taken := FromOutside(step);
      if taken && step.Subscribe? {
        var _ := Start();
        return;
      }
      taken := taken && step.i < |listeners|;
      if taken {
        match step {
          case Listen(i) =>
            taken := MayListen(i);
            if taken {
              ListenStep(i);
            }
          case TimeOut(i) =>
            taken := listeners[i].pc.Waiting?;
            if taken {
              LeaveWait(i, true);
            }
          case Spurious(i) =>
            taken := listeners[i].pc.Waiting?;
            if taken {
              LeaveWait(i, false);
            }
          case Cancel(i) => CancelListener(i);
        }
      }
    }

    /** Whether the listener's next step is possible: whether it need not wait for the mutex. */
    method MayListen(i: nat) returns (may: bool)
      requires i < |listeners|
      ensures may <==> CanListen(Snapshot(), listeners[i])
    {
      var l := listeners[i];
      match l.pc {
        case Entering => may := !Writes(writer);
        case Notified => may := !Writes(writer);
        case TimedOut => may := !Writes(writer);
        case Copying(k) => may := k < packetSize ==> k < |l.buffer| && k < memory.Length;
        case Waiting => may := false;
        case Ended => may := false;
        case Testing => may := true;
        case Woken => may := true;
      }
    }

    /** What the listeners do between two steps of the publisher. */
    method Interfere(wanted: seq<Step>) returns (ghost steps: seq<Step>)
      requires Inv(Snapshot())
      modifies `listeners
      ensures Inv(Snapshot()) && Handed(Snapshot()) == Handed(old(Snapshot()))
      ensures Possible(old(Snapshot()), steps) && Snapshot() == After(old(Snapshot()), steps)
    {
      steps := [];
      for k := 0 to |wanted|
        invariant Inv(Snapshot()) && Handed(Snapshot()) == Handed(old(Snapshot()))
        invariant Possible(old(Snapshot()), steps) && Snapshot() == After(old(Snapshot()), steps)
      {
        ghost var s := Snapshot();
        var taken := TryFromOutside(wanted[k]);
        if taken {
          StepKeepsInv(s, wanted[k]);
          StepAccepts(s, wanted[k]);
          AfterOne(old(Snapshot()), steps, wanted[k]);
          steps := steps + [wanted[k]];
        }
      }
    }

    /** The first listener that holds the mutex, if there is one. */
    method FindReader() returns (i: nat)
      ensures i <= |listeners|
      ensures i < |listeners| ==> Reads(listeners[i].pc)
      ensures i == |listeners| ==> NobodyReads(listeners)
    {
      i := 0;
      while i < |listeners| && !Reads(listeners[i].pc)
        invariant i <= |listeners| && forall k :: 0 <= k < i ==> !Reads(listeners[k].pc)
      {
        i := i + 1;
      }
    }

    /** The publisher's next step, or, while it waits for the mutex, one of a listener that holds it. */
    method Proceed() returns (ghost step: Step)
      requires Inv(Snapshot()) && Publishing(writer)
      modifies this, memory
      ensures Enabled(old(Snapshot()), step) && Snapshot() == Apply(old(Snapshot()), step)
      ensures Inv(Snapshot()) && (step.Write? || step.Listen?)
      ensures NobodyReads(old(listeners)) ==> step == Write
      ensures WriterLeft(writer) < WriterLeft(old(writer))
              || (writer == old(writer) && ReadersLeft(Snapshot()) < ReadersLeft(old(Snapshot())))
    {
      ghost var s := Snapshot();
      var i := |listeners|;
      if writer.ToWrite? {
        i := FindReader();
      }
      if i < |listeners| {
        step := Listen(i);
        StaysInTheRegion(s, i);
        ReaderGoesOn(s, i);
        ListenStep(i);
      } else {
        step := Write;
        WritesOn(s);
        WriteStep();
      }
      StepKeepsInv(s, step);
    }

    /** The rest of a call of `publish`, with its packet under way since s0. */
    method Finish(meanwhile: seq<seq<Step>>, ghost s0: State, ghost packet: Packet) returns (ghost steps: seq<Step>)
      requires Inv(Snapshot()) && Carries(s0, Snapshot(), packet)
      modifies this, memory
      ensures Inv(Snapshot()) && Carries(s0, Snapshot(), packet) && writer.Free?
      ensures Possible(old(Snapshot()), steps) && Snapshot() == After(old(Snapshot()), steps)
      ensures meanwhile == [] && Undisturbed(s0, old(Snapshot())) ==> Undisturbed(s0, Snapshot())
    {
      steps := [];
      var turn := 0;
      ghost var alone := meanwhile == [] && Undisturbed(s0, Snapshot());
      while !writer.Free?
        invariant Inv(Snapshot()) && Carries(s0, Snapshot(), packet)
        invariant Possible(old(Snapshot()), steps) && Snapshot() == After(old(Snapshot()), steps)
        invariant alone ==> Undisturbed(s0, Snapshot())
        decreases if turn < |meanwhile| then |meanwhile| - turn else 0, WriterLeft(writer), ReadersLeft(Snapshot())
      {
        if turn < |meanwhile| {
          ghost var outside := Interfere(meanwhile[turn]);
          turn := turn + 1;
          AfterMore(old(Snapshot()), steps, outside);
          steps := steps + outside;
        }
        ghost var s := Snapshot();
        ghost var step := Proceed();
        CarriesOn(s0, s, step, packet);
        if alone {
          UndisturbedOn(s0, s);
        }
        AfterOne(old(Snapshot()), steps, step);
        steps := steps + [step];
      }
    }

    /** `publish` from start to end, whatever the listeners do meanwhile; after that, those that hold the
        mutex go on until they release it. A packet that does not fit is refused. Any other is published:
        the slot then holds it, in full, and the bytes behind it are untouched; undisturbed, the call does
        no more to the listeners than notify those that wait. */
    method Publish(packet: Packet, meanwhile: seq<seq<Step>>) returns (ok: bool, ghost steps: seq<Step>)
      requires Inv(Snapshot()) && writer.Free?
      modifies this, memory
      ensures Inv(Snapshot()) && writer.Free?
      ensures Possible(old(Snapshot()), steps) && Snapshot() == After(old(Snapshot()), steps)
      ensures ok <==> |packet| <= memory.Length
      ensures ok ==> published == old(published) + [packet] && SlotHolds(Snapshot(), packet)
      ensures ok ==> memory[|packet|..] == old(memory[|packet|..])
      ensures ok && meanwhile == [] && NobodyReads(old(listeners)) ==> listeners == NotifyAll(old(listeners))
      ensures !ok ==> Snapshot() == old(Snapshot())
    {
      ghost var s0 := Snapshot();
      StepKeepsInv(s0, Offer(packet));
      AfterOne(s0, [], Offer(packet));
      steps := [Offer(packet)];
      assert [] + steps == steps;
      ok := Begin(packet);
      if ok {
        ghost var rest := Finish(meanwhile, s0, packet);
        AfterMore(s0, steps, rest);
        steps := steps + rest;
        Carried(s0, Snapshot(), packet);
      }
    }

    /** Any interleaving of the publisher and its listeners. */
    method Interleave(schedule: seq<Step>)
      requires Possible(Snapshot(), schedule)
      modifies this, memory
      ensures Snapshot() == After(old(Snapshot()), schedule)
    {
      var k := 0;
      while k < |schedule|
        invariant k <= |schedule| && Possible(Snapshot(), schedule[k..])
        invariant After(Snapshot(), schedule[k..]) == After(old(Snapshot()), schedule)
      {
        assert schedule[k..][1..] == schedule[k + 1..];
        match schedule[k] {
          case Offer(packet) => var _ := Begin(packet);
          case Close => writer := ToClose;
          case Write => WriteStep();
          case Subscribe => var _ := Start();
          case Listen(i) => ListenStep(i);
          case TimeOut(i) => LeaveWait(i, true);
          case Spurious(i) => LeaveWait(i, false);
          case Cancel(i) => CancelListener(i);
        }
        k := k + 1;
      }
    }
  }
}
