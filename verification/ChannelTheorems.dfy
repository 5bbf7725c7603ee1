// When a listener's deliveries are a strictly increasing subsequence of the publications.

module ChannelTheorems {
  import opened SharedMemorySteps
  import opened SharedMemoryTheorems

  predicate Increasing(seen: seq<nat>) {
    forall a, b :: 0 <= a < b < |seen| ==> seen[a] < seen[b]
  }

  /** No packet delivered twice, and none before the first publication. */
  predicate Ordered(l: Listener) {
    Increasing(l.seen) && (l.seen != [] ==> l.seen[0] > 0)
  }

  function LastSeen(l: Listener): nat {
    if l.seen == [] then 0 else l.seen[|l.seen| - 1]
  }

  /** A wakeup now finds something new, or the end: something has been published that the listener has not
      seen, or will be before it can take the mutex; or the slot is closed, or will be. */
  predicate Expects(s: State, l: Listener) {
    || !s.active || LastSeen(l) < |s.published|
    || s.writer.Sizing? || s.writer.Writing? || s.writer.Notifying? || s.writer.Closing?
  }

  predicate NewsOk(s: State, l: Listener) {
    && Ordered(l) && LastSeen(l) <= |s.published|
    && (l.pc.Notified? ==> Expects(s, l))
    && (l.pc.Woken? ==> !s.active || LastSeen(l) < |s.published|)
    && (l.pc.Copying? ==> LastSeen(l) < |s.published|)
  }

  predicate NewsInv(s: State, i: nat) {
    i < |s.listeners| ==> NewsOk(s, s.listeners[i])
  }

  lemma WriteKeepsNews(s: State, i: nat)
    requires Inv(s) && NewsInv(s, i) && CanWrite(s)
    ensures NewsInv(NextWrite(s), i)
  {
    if i < |s.listeners| {
      assert Writes(s.writer) ==> !Reads(s.listeners[i].pc);
    }
  }

  lemma ListenKeepsNews(s: State, l: Listener)
    requires CanListen(s, l) && NewsOk(s, l) && (l.pc.Copying? ==> s.active)
    ensures NewsOk(s, NextListen(s, l))
  {
  }

  lemma StepKeepsNews(s: State, i: nat, step: Step)
    requires Inv(s) && NewsInv(s, i) && Enabled(s, step)
    requires step == Spurious(i) ==> Expects(s, s.listeners[i])
    ensures NewsInv(Apply(s, step), i) && |s.listeners| <= |Apply(s, step).listeners|
  {
    match step
    case Write => WriteKeepsNews(s, i);
    case Listen(j) =>
      if j == i {
        ListenKeepsNews(s, s.listeners[i]);
      }
    case _ =>
  }

  /** Listener i never wakes up without a notification, but when it may. */
  predicate WellTimed(s: State, steps: seq<Step>, i: nat)
    requires Possible(s, steps)
    decreases steps
  {
    steps == [] || ((steps[0] == Spurious(i) ==> Expects(s, s.listeners[i]))
                    && WellTimed(Apply(s, steps[0]), steps[1..], i))
  }

  lemma {:induction false} RunKeepsNews(s: State, i: nat, steps: seq<Step>)
    requires Inv(s) && NewsInv(s, i) && Possible(s, steps) && WellTimed(s, steps, i)
    ensures NewsInv(After(s, steps), i) && |s.listeners| <= |After(s, steps).listeners|
    decreases steps
  {
    if steps == [] {
    } else {
      StepKeepsNews(s, i, steps[0]);
      StepKeepsInv(s, steps[0]);
      RunKeepsNews(Apply(s, steps[0]), i, steps[1..]);
    }
  }

  lemma {:induction false} IncreasingFrom(seen: seq<nat>, k: nat)
    requires Increasing(seen) && k < |seen|
    ensures seen[0] + k <= seen[k]
  {
    if k == 0 {
    } else {
      IncreasingFrom(seen, k - 1);
    }
  }

  /** A listener all of whose spurious wakeups are well timed, whatever the others do, gets some of the
      packets published, each at most once and in the order of their publication: a lossy, ordered
      channel. */
  lemma LossyOrderedChannel(memory: Packet, steps: seq<Step>, i: nat)
    requires Possible(Initial(memory), steps) && WellTimed(Initial(memory), steps, i)
    requires i < |After(Initial(memory), steps).listeners|
    ensures var s := After(Initial(memory), steps); var l := s.listeners[i];
      && |l.delivered| == |l.seen| <= |s.published| && Increasing(l.seen)
      && forall k :: 0 <= k < |l.seen| ==>
           1 <= l.seen[k] <= |s.published| && l.delivered[k] == s.published[l.seen[k] - 1]
  {
    InitialInv(memory);
    RunKeepsInv(Initial(memory), steps);
    RunKeepsNews(Initial(memory), i, steps);
    var s := After(Initial(memory), steps);
    var l := s.listeners[i];
    assert HistoryOk(l, s.published);
    forall k | 0 <= k < |l.seen| ensures 1 <= l.seen[k] {
      IncreasingFrom(l.seen, k);
    }
    if l.seen != [] {
      IncreasingFrom(l.seen, |l.seen| - 1);
    }
  }

  // ----- the exact condition

  predicate NoneOf(steps: seq<Step>, i: nat) {
    forall k :: 0 <= k < |steps| ==> steps[k] != Spurious(i)
  }

  lemma {:induction false} NoneIsWellTimed(s: State, steps: seq<Step>, i: nat)
    requires Possible(s, steps) && NoneOf(steps, i)
    ensures WellTimed(s, steps, i)
    decreases steps
  {
    if steps == [] {
    } else {
      assert steps[0] != Spurious(i);
      assert forall k :: 0 <= k < |steps[1..]| ==> steps[1..][k] == steps[k + 1];
      NoneIsWellTimed(Apply(s, steps[0]), steps[1..], i);
    }
  }

  /** Whatever happens, as long as listener i has no other spurious wakeup, its deliveries stay in order. */
  ghost predicate StaysOrdered(s: State, i: nat) {
    forall steps :: Possible(s, steps) && NoneOf(steps, i) && i < |After(s, steps).listeners| ==>
      Ordered(After(s, steps).listeners[i])
  }

  lemma OneFirst(s: State, step: Step, rest: seq<Step>, i: nat) returns (steps: seq<Step>)
    requires Enabled(s, step) && step != Spurious(i) && Possible(Apply(s, step), rest) && NoneOf(rest, i)
    ensures Possible(s, steps) && NoneOf(steps, i) && After(s, steps) == After(Apply(s, step), rest)
  {
    steps := [step] + rest;
    assert steps[1..] == rest;
  }

  /** A listener that copies can go on to deliver. */
  lemma {:induction false} Delivers(s: State, i: nat) returns (steps: seq<Step>)
    requires Inv(s) && i < |s.listeners| && s.listeners[i].pc.Copying?
    ensures Possible(s, steps) && NoneOf(steps, i)
    ensures var u := After(s, steps);
      i < |u.listeners| && u.listeners[i].seen == s.listeners[i].seen + [|s.published|]
    decreases s.size - s.listeners[i].pc.k
  {
    StaysInTheRegion(s, i);
    StepKeepsInv(s, Listen(i));
    var u := Apply(s, Listen(i));
    if s.listeners[i].pc.k == s.size {
      steps := OneFirst(s, Listen(i), [], i);
    } else {
      var rest := Delivers(u, i);
      steps := OneFirst(s, Listen(i), rest, i);
    }
  }

  /** A listener that has been woken, with the slot open and no writer in the way, can go on to deliver. */
  lemma WakesToDeliver(s: State, i: nat) returns (steps: seq<Step>)
    requires Inv(s) && s.active && !Writes(s.writer)
    requires i < |s.listeners| && s.listeners[i].pc.Notified?
    ensures Possible(s, steps) && NoneOf(steps, i)
    ensures var u := After(s, steps);
      i < |u.listeners| && u.listeners[i].seen == s.listeners[i].seen + [|s.published|]
  {
    var s1 := Apply(s, Listen(i));
    var s2 := Apply(s1, Listen(i));
    StepKeepsInv(s, Listen(i));
    StepKeepsInv(s1, Listen(i));
    steps := Delivers(s2, i);
    steps := OneFirst(s1, Listen(i), steps, i);
    steps := OneFirst(s, Listen(i), steps, i);
  }

  /** A badly timed wakeup can make the listener deliver again what it has delivered last, or, when it has
      delivered nothing yet, the empty slot. */
  lemma BadlyTimed(s: State, i: nat) returns (steps: seq<Step>)
    requires Inv(s) && NewsInv(s, i) && Enabled(s, Spurious(i)) && !Expects(s, s.listeners[i])
    ensures var u := Apply(s, Spurious(i));
      && Possible(u, steps) && NoneOf(steps, i)
      && i < |After(u, steps).listeners| && !Ordered(After(u, steps).listeners[i])
  {
    var u := Apply(s, Spurious(i));
    StepKeepsInv(s, Spurious(i));
    if u.writer.Releasing? {
      StepKeepsInv(u, Write);
      steps := WakesToDeliver(Apply(u, Write), i);
      steps := OneFirst(u, Write, steps, i);
    } else {
      steps := WakesToDeliver(u, i);
    }
    var seen := s.listeners[i].seen;
    var more := After(u, steps).listeners[i].seen;
    assert more == seen + [|s.published|];
    if seen == [] {
      assert more[0] == 0;
    } else {
      assert more[|seen| - 1] == more[|seen|];
    }
  }

  /** The exact condition: a spurious wakeup can do no harm, in any continuation, if and only if it is well
      timed. */
  lemma SpuriousHarmlessExactly(s: State, i: nat)
    requires Inv(s) && NewsInv(s, i) && Enabled(s, Spurious(i))
    ensures StaysOrdered(Apply(s, Spurious(i)), i) <==> Expects(s, s.listeners[i])
  {
    var u := Apply(s, Spurious(i));
    if Expects(s, s.listeners[i]) {
      StepKeepsNews(s, i, Spurious(i));
      StepKeepsInv(s, Spurious(i));
      forall steps | Possible(u, steps) && NoneOf(steps, i) && i < |After(u, steps).listeners|
        ensures Ordered(After(u, steps).listeners[i])
      {
        NoneIsWellTimed(u, steps, i);
        RunKeepsNews(u, i, steps);
      }
    } else {
      var steps := BadlyTimed(s, i);
    }
  }

  // ----- what is published is delivered

  /** On its way from a notification to the delivery of what the slot holds. */
  predicate OnItsWay(pc: ListenerPc) {
    pc.Notified? || pc.Woken? || pc.Copying?
  }

  /** How many steps of its own the delivery is away at most, in a region with so much room. */
  function WayLeft(pc: ListenerPc, size: nat, room: nat): nat {
    match pc
    case Notified => room + 3
    case Woken => size + 2
    case Copying(k) => (if k < size then size - k else 0) + 1
    case _ => 0
  }

  function ListenerWay(s: State, i: nat): nat
    requires i < |s.listeners|
  {
    WayLeft(s.listeners[i].pc, s.size, |s.memory|)
  }

  lemma SlotIsInRegion(s: State)
    requires WriterOk(s)
    ensures s.size <= |s.memory|
  {
  }

  /** A listener's own step on its way, with the slot open. */
  lemma WayMove(s: State, i: nat)
    requires Inv(s) && s.active && Enabled(s, Listen(i)) && OnItsWay(s.listeners[i].pc)
    ensures var l, m := s.listeners[i], Apply(s, Listen(i)).listeners[i];
      || (OnItsWay(m.pc) && m.seen == l.seen && ListenerWay(Apply(s, Listen(i)), i) < ListenerWay(s, i))
      || (m.pc.Testing? && m.seen == l.seen + [|s.published|])
  {
    assert CopyOk(s.listeners[i], s.size, s.memory);
    SlotIsInRegion(s);
  }

  /** Whatever the others do, it stays on its way. */
  lemma WayStays(s: State, i: nat, step: Step)
    requires Inv(s) && i < |s.listeners| && OnItsWay(s.listeners[i].pc) && Enabled(s, step) && step != Listen(i)
    ensures var u := Apply(s, step);
      && i < |u.listeners| && u.listeners[i].pc == s.listeners[i].pc && u.listeners[i].seen == s.listeners[i].seen
      && ListenerWay(u, i) == ListenerWay(s, i)
  {
    assert Writes(s.writer) ==> !Reads(s.listeners[i].pc);
  }

  lemma {:induction false} SeenGrows(s: State, steps: seq<Step>, i: nat)
    requires Possible(s, steps) && i < |s.listeners|
    ensures i < |After(s, steps).listeners| && s.listeners[i].seen <= After(s, steps).listeners[i].seen
    decreases steps
  {
    if steps == [] {
    } else {
      SeenGrowsOnce(s, steps[0], i);
      SeenGrows(Apply(s, steps[0]), steps[1..], i);
    }
  }

  lemma SeenGrowsOnce(s: State, step: Step, i: nat)
    requires Enabled(s, step) && i < |s.listeners|
    ensures i < |Apply(s, step).listeners| && s.listeners[i].seen <= Apply(s, step).listeners[i].seen
    ensures |s.published| <= |Apply(s, step).published| && (Apply(s, step).active ==> s.active)
  {
  }

  lemma {:induction false} StaysClosed(s: State, steps: seq<Step>)
    requires Possible(s, steps) && !s.active
    ensures !After(s, steps).active
    decreases steps
  {
    if steps == [] {
    } else {
      StaysClosed(Apply(s, steps[0]), steps[1..]);
    }
  }

  /** The listener has delivered, since its history was `seen`, the n-th packet or a later one. */
  predicate HasDelivered(l: Listener, seen: seq<nat>, n: nat) {
    |seen| < |l.seen| && seen <= l.seen && l.seen[|seen|] >= n
  }

  /** A listener on its way delivers with the last of so many steps of its own, as long as the slot is open: what
      the slot holds now or something later. Until then only a publisher that holds the mutex can keep it
      waiting. */
  lemma {:induction false} OnItsWayDelivers(s: State, steps: seq<Step>, i: nat)
    requires Inv(s) && i < |s.listeners| && OnItsWay(s.listeners[i].pc)
    requires Possible(s, steps) && After(s, steps).active
    ensures var u := After(s, steps);
      && i < |u.listeners|
      && (HasDelivered(u.listeners[i], s.listeners[i].seen, |s.published|)
          || (OnItsWay(u.listeners[i].pc) && Turns(steps, i) < ListenerWay(s, i)
              && (Enabled(u, Listen(i)) || Writes(u.writer))))
    decreases steps
  {
    if steps == [] {
      StaysInTheRegion(s, i);
    } else {
      var u, rest := Apply(s, steps[0]), steps[1..];
      StepKeepsInv(s, steps[0]);
      SeenGrowsOnce(s, steps[0], i);
      if !s.active {
        StaysClosed(s, steps);
      } else if steps[0] == Listen(i) {
        WayMove(s, i);
        if OnItsWay(u.listeners[i].pc) && u.listeners[i].seen == s.listeners[i].seen {
          OnItsWayDelivers(u, rest, i);
        } else {
          SeenGrows(u, rest, i);
        }
      } else {
        WayStays(s, i, steps[0]);
        OnItsWayDelivers(u, rest, i);
      }
    }
  }

  /** Whatever is published is delivered by every listener that waits for it, or something later is: in every
      continuation in which the slot stays open, once the listener has made as many steps as the region has
      bytes and three more. Nothing but the publisher's holding the mutex can keep it from making them. */
  lemma PublishedIsDelivered(s: State, steps: seq<Step>, i: nat)
    requires Inv(s) && s.writer.Notifying? && i < |s.listeners| && s.listeners[i].pc.Waiting?
    requires Possible(Apply(s, Write), steps) && After(Apply(s, Write), steps).active
    ensures var u := After(Apply(s, Write), steps);
      && i < |u.listeners|
      && (HasDelivered(u.listeners[i], s.listeners[i].seen, |s.published| + 1)
          || (Turns(steps, i) < |s.memory| + 3 && (Enabled(u, Listen(i)) || Writes(u.writer))))
  {
    StepKeepsInv(s, Write);
    OnItsWayDelivers(Apply(s, Write), steps, i);
  }

  /** And it can always be delivered itself. */
  lemma PublishedCanBeDelivered(s: State, i: nat) returns (steps: seq<Step>)
    requires Inv(s) && s.writer.Notifying? && i < |s.listeners| && s.listeners[i].pc.Waiting?
    ensures Possible(Apply(s, Write), steps) && NoneOf(steps, i)
    ensures var u := After(Apply(s, Write), steps);
      i < |u.listeners| && u.listeners[i].seen == s.listeners[i].seen + [|s.published| + 1]
  {
    var t := Apply(s, Write);
    StepKeepsInv(s, Write);
    StepKeepsInv(t, Write);
    steps := WakesToDeliver(Apply(t, Write), i);
    steps := OneFirst(t, Write, steps, i);
  }

  // ----- a cancelled listener

  /** How many steps of its own a cancelled listener that is not waiting is from its end at most. */
  function EndLeft(pc: ListenerPc, size: nat, room: nat): nat {
    match pc
    case Ended => 0
    case Testing => 1
    case Entering => 2
    case TimedOut => 2
    case _ => WayLeft(pc, size, room) + 1
  }

  function ListenerEnd(s: State, i: nat): nat
    requires i < |s.listeners|
  {
    EndLeft(s.listeners[i].pc, s.size, |s.memory|)
  }

  predicate Leaving(s: State, i: nat) {
    i < |s.listeners| && s.listeners[i].canceled && !s.listeners[i].pc.Waiting?
  }

  lemma LeavingMove(s: State, i: nat)
    requires Inv(s) && Leaving(s, i) && Enabled(s, Listen(i))
    ensures var u := Apply(s, Listen(i)); Leaving(u, i) && ListenerEnd(u, i) < ListenerEnd(s, i)
  {
    assert CopyOk(s.listeners[i], s.size, s.memory);
    SlotIsInRegion(s);
  }

  lemma LeavingStays(s: State, i: nat, step: Step)
    requires Inv(s) && Leaving(s, i) && Enabled(s, step) && step != Listen(i)
    ensures var u := Apply(s, step); Leaving(u, i) && ListenerEnd(u, i) == ListenerEnd(s, i)
  {
    assert Writes(s.writer) ==> !Reads(s.listeners[i].pc);
  }

  /** A cancelled listener that is not waiting never waits again and ends within so many steps of its own: with
      the next if it is about to test its loop's condition. Only a publisher that holds the mutex can keep
      it waiting. */
  lemma {:induction false} CanceledListenerEnds(s: State, steps: seq<Step>, i: nat)
    requires Inv(s) && Leaving(s, i) && Possible(s, steps)
    ensures var u := After(s, steps);
      && Leaving(u, i)
      && (u.listeners[i].pc.Ended?
          || (Turns(steps, i) < ListenerEnd(s, i) <= |s.memory| + 4 && (Enabled(u, Listen(i)) || Writes(u.writer))))
    decreases steps
  {
    if steps == [] {
      StaysInTheRegion(s, i);
      SlotIsInRegion(s);
    } else {
      StepKeepsInv(s, steps[0]);
      StepAccepts(s, steps[0]);
      if steps[0] == Listen(i) {
        LeavingMove(s, i);
      } else {
        LeavingStays(s, i, steps[0]);
      }
      SlotIsInRegion(s);
      CanceledListenerEnds(Apply(s, steps[0]), steps[1..], i);
    }
  }

  /** The same from the request on: whatever happens after a listener has been cancelled, it has ended, or it
      still waits where it waited, or it has fewer than so many steps left. */
  lemma {:induction false} CancelEndsListener(s: State, steps: seq<Step>, i: nat)
    requires Inv(s) && i < |s.listeners| && Possible(Apply(s, Cancel(i)), steps)
    ensures var u := After(Apply(s, Cancel(i)), steps);
      && i < |u.listeners|
      && (u.listeners[i].pc.Ended? || (s.listeners[i].pc.Waiting? && u.listeners[i].pc.Waiting?)
          || (Turns(steps, i) < |s.memory| + 4 && (Enabled(u, Listen(i)) || Writes(u.writer))))
  {
    StepKeepsInv(s, Cancel(i));
    CanceledRun(Apply(s, Cancel(i)), steps, i);
  }

  lemma {:induction false} CanceledRun(s: State, steps: seq<Step>, i: nat)
    requires Inv(s) && i < |s.listeners| && s.listeners[i].canceled && Possible(s, steps)
    ensures var u := After(s, steps);
      && i < |u.listeners|
      && (u.listeners[i].pc.Ended? || (s.listeners[i].pc.Waiting? && u.listeners[i].pc.Waiting?)
          || (Turns(steps, i) < |s.memory| + 4 && (Enabled(u, Listen(i)) || Writes(u.writer))))
    decreases steps
  {
    if !s.listeners[i].pc.Waiting? {
      CanceledListenerEnds(s, steps, i);
    } else if steps == [] {
    } else {
      StepKeepsInv(s, steps[0]);
      StepAccepts(s, steps[0]);
      CanceledRun(Apply(s, steps[0]), steps[1..], i);
    }
  }

  // ----- a listener that is not cancelled

  predicate EndedForAReason(s: State, i: nat) {
    i < |s.listeners| && s.listeners[i].pc.Ended? ==> s.listeners[i].canceled || !s.active
  }

  lemma {:induction false} ReasonStays(s: State, steps: seq<Step>, i: nat)
    requires Possible(s, steps) && EndedForAReason(s, i)
    ensures EndedForAReason(After(s, steps), i)
    decreases steps
  {
    if steps == [] {
    } else {
      ReasonStays(Apply(s, steps[0]), steps[1..], i);
    }
  }

  /** A listener ends only if it has been cancelled or the slot has been closed. */
  lemma NeverEndsEarly(memory: Packet, steps: seq<Step>, i: nat)
    requires Possible(Initial(memory), steps)
    ensures EndedForAReason(After(Initial(memory), steps), i)
  {
    ReasonStays(Initial(memory), steps, i);
  }

  /** How many steps of its own a listener that is not cancelled is from its next wait. */
  function ToWait(pc: ListenerPc): nat {
    match pc
    case Testing => 1
    case Entering => 2
    case TimedOut => 2
    case _ => 0
  }

  /** And it waits again: after a delivery, a timeout or its start, with the last of so many steps of its own,
      whatever the others do short of cancelling it. */
  lemma {:induction false} WaitsAgain(s: State, steps: seq<Step>, i: nat)
    requires i < |s.listeners| && !s.listeners[i].canceled && ToWait(s.listeners[i].pc) > 0
    requires Possible(s, steps) && Cancel(i) !in steps && Turns(steps, i) < ToWait(s.listeners[i].pc)
    ensures var u := After(s, steps);
      && i < |u.listeners| && ToWait(u.listeners[i].pc) == ToWait(s.listeners[i].pc) - Turns(steps, i)
      && (Enabled(u, Listen(i)) || Writes(u.writer))
      && (ToWait(u.listeners[i].pc) == 1 ==> Enabled(u, Listen(i)) && Apply(u, Listen(i)).listeners[i].pc.Waiting?)
    decreases steps
  {
    if steps == [] {
    } else {
      assert steps[0] in steps;
      WaitsAgain(Apply(s, steps[0]), steps[1..], i);
    }
  }
}
