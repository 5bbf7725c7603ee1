// The object of src/Utilities/Scheduler/MultiThreadingScheduler.cpp: its methods change its fields in
// place and are proved against the steps they stand for.

module MultiThreadingScheduler {
  import opened Options
  import opened EventQueue
  import opened SchedulerSteps
  import opened SchedulerTheorems
  import opened DispatchTheorems

  class MultiThreadingScheduler {
    var startingTime: int
    var events: seq<Entry>
    var jobs: seq<Job>
    var inserted: nat
    var pc: DispatchPc
    var now: int
    var pass: seq<Entry>

    ghost function Snapshot(): State
      reads this
    {
      State(startingTime, events, jobs, inserted, pc, now, pass)
    }

    constructor ()
      ensures Snapshot() == INITIAL
    {
      startingTime, events, jobs, inserted := 0, [], [], 0;
      pc, now, pass := NotRunning, 0, [];
    }

    // ----- scheduling and cancelling

    /** `createSchedule`: a key counts from the start of the scheduler, a delay from the moment of the
        call. Once the scheduler runs, the two meet at the same instant. */
    method CreateSchedule(start: int, clock: int) returns (key: int)
      ensures pc.NotRunning? ==> key == start
      ensures !pc.NotRunning? ==> startingTime + key == clock + start
    {
      key := start;
      if !pc.NotRunning? {
        key := key + (clock - startingTime);
      }
    }

    /** Both overloads of `schedule`, without and with a period. */
    method ScheduleBody(initialFromNow: int, period: Option<int>, clock: int) returns (event: nat, key: int)
      requires !Dispatching(pc)
      modifies `events, `jobs, `inserted
      ensures event == |old(jobs)| && Snapshot() == Apply(old(Snapshot()), Schedule(key, period))
      ensures key == if pc.NotRunning? then initialFromNow else clock + initialFromNow - startingTime
    {
      key := CreateSchedule(initialFromNow, clock);
      event := |jobs|;
      jobs := jobs + [NewJob(period, key)];
      InsertEvent(key, event);
    }

    method InsertEvent(key: int, body: nat)
      modifies `events, `inserted
      ensures events == Insert(old(events), Entry(key, old(inserted), body))
      ensures inserted == old(inserted) + 1
    {
      events := Insert(events, Entry(key, inserted, body));
      inserted := inserted + 1;
    }

    method CancelBody(body: nat)
      requires Enabled(Snapshot(), Cancel(body))
      modifies `jobs
      ensures Snapshot() == Apply(old(Snapshot()), Cancel(body))
    {
      jobs := jobs[body := jobs[body].(canceled := true)];
    }

    // ----- the threads

    /** The next step of a body's thread. */
    method Advance(body: nat, t: nat)
      requires Enabled(Snapshot(), Thread(body, t))
      modifies `jobs
      ensures Snapshot() == Apply(old(Snapshot()), Thread(body, t))
    {
      var j := jobs[body];
      match j.threads[t] {
        case Ready => j := CallBody(j, t);
        case Spawned =>
          if j.period.None? {
            j := CallBody(j, t);
          } else {
            j := j.(threads := j.threads[t := Looping]);
          }
        case Notified => j := j.(threads := j.threads[t := Looping]);
        case Looping =>
          if !j.canceled {
            j := j.(threads := j.threads[t := Ready]);
          } else {
            j := j.(threads := j.threads[t := Exiting]);
          }
        case Running =>
          if j.period.None? {
            j := j.(done := true, threads := j.threads[t := Ended]);
          } else {
            j := j.(threads := j.threads[t := Waiting]);
          }
        case Exiting => j := j.(started := false, threads := j.threads[t := Leaving]);
        case Leaving => j := j.(threads := j.threads[t := Ended]);
      }
      jobs := jobs[body := j];
    }

    method CallBody(j: Job, t: nat) returns (k: Job)
      requires t < |j.threads|
      ensures k == Called(j, t)
    {
      k := j.(threads := j.threads[t := Running], starts := j.starts + 1);
      if j.canceled {
        k := k.(startsAfterCancel := k.startsAfterCancel + 1);
      }
    }

    method WakeSpuriously(body: nat, t: nat)
      requires Enabled(Snapshot(), Spurious(body, t))
      modifies `jobs
      ensures Snapshot() == Apply(old(Snapshot()), Spurious(body, t))
    {
      var j := jobs[body];
      jobs := jobs[body := j.(threads := j.threads[t := Notified], spurious := j.spurious + 1)];
    }

    // ----- the dispatcher

    /** `handleMissedDeadline`. */
    method HandleMissedDeadline(body: nat)
      requires events != [] && body < |jobs|
      modifies `events, `inserted, `pass
      ensures var grown := Insert(old(events), Entry(old(events)[0].time + Gap(jobs[body]), old(inserted), body));
        && events == grown[1..] && pass == old(pass) + [grown[0]] && inserted == old(inserted) + 1
    {
      InsertEvent(events[0].time + Gap(jobs[body]), body);
      EraseFirst();
    }

    method EraseFirst()
      requires events != []
      modifies `events, `pass
      ensures events == old(events)[1..] && pass == old(pass) + [old(events)[0]]
    {
      pass := pass + [events[0]];
      events := events[1..];
    }

    /** try_to_lock and notify_one; false when the mutex was taken. */
    method NotifyIfFree(body: nat) returns (free: bool)
      requires body < |jobs|
      modifies `jobs
      ensures free <==> MutexFree(old(jobs)[body].threads)
      ensures free ==> jobs == old(jobs)[body := Handle(old(jobs)[body], TryLock).job]
      ensures !free ==> jobs == old(jobs)
    {
      var j := jobs[body];
      free := true;
      for t := 0 to |j.threads|
        invariant free <==> forall u :: 0 <= u < t ==> !HoldsMutex(j.threads[u])
      {
        if HoldsMutex(j.threads[t]) {
          free := false;
        }
      }
      if free {
        var count := if j.canceled then 1 else 0;
        var unheard := if Waiting in j.threads then 0 else 1;
        jobs := jobs[body := j.(threads := NotifyOne(j.threads), notifies := j.notifies + 1,
                                unheard := j.unheard + unheard, freeAfterCancel := j.freeAfterCancel + count)];
      }
    }

    /** The dispatch loop's condition, and the branch on period and isStarted. */
    method TakeHead()
      requires Enabled(Snapshot(), Dispatch) && pc.Head?
      modifies this
      ensures Snapshot() == Apply(old(Snapshot()), Dispatch)
    {
      if events == [] || startingTime + events[0].time > now {
        pc := Idle;
        return;
      }
      var it := events[0];
      pc := Handling(it, FirstPhase(jobs[it.body]));
      jobs := jobs[it.body := Picked(jobs[it.body])];
    }

    /** The due instant of a body that has a thread. */
    method WakeThread()
      requires Enabled(Snapshot(), Dispatch) && pc.Handling? && pc.phase.TryLock?
      modifies this
      ensures Snapshot() == Apply(old(Snapshot()), Dispatch)
    {
      var it := pc.it;
      var j := jobs[it.body];
      var free := NotifyIfFree(it.body);
      if free {
        pc := Handling(it, CancelCheck);
      } else {
        jobs := jobs[it.body := j.(missed := j.missed + 1)];
        HandleMissedDeadline(it.body);
        pc := Head;
      }
    }

    /** One step of the dispatch loop. */
    method DispatchStep()
      requires Enabled(Snapshot(), Dispatch)
      modifies this
      ensures Snapshot() == Apply(old(Snapshot()), Dispatch)
    {
      if pc.Head? {
        TakeHead();
        return;
      }
      var it := pc.it;
      var j := jobs[it.body];
      match pc.phase {
        case TryLock =>
          WakeThread();
        case CancelCheck =>
          if j.canceled {
            EraseFirst();
            pc := Head;
          } else {
            pc := Handling(it, Reschedule);
          }
        case SpawnCheck =>
          if !j.canceled {
            pc := Handling(it, SpawnThread);
          } else {
            jobs := jobs[it.body := Dropped(j)];
            pc := Handling(it, Reschedule);
          }
        case SpawnThread =>
          jobs := jobs[it.body := j.(started := true, threads := j.threads + [Spawned])];
          pc := Handling(it, Reschedule);
        case Reschedule =>
          if !j.canceled {
            InsertEvent(it.time + Gap(j), it.body);
          }
          pc := Handling(it, Erase);
        case OneShotCheck =>
          if !j.canceled {
            pc := Handling(it, OneShotSpawn);
          } else {
            jobs := jobs[it.body := Dropped(j)];
            pc := Handling(it, Erase);
          }
        case OneShotSpawn =>
          jobs := jobs[it.body := j.(threads := j.threads + [Spawned])];
          pc := Handling(it, Erase);
        case Erase =>
          EraseFirst();
          pc := Head;
      }
    }

    method Perform(step: Step)
      requires Enabled(Snapshot(), step)
      modifies this
      ensures Snapshot() == Apply(old(Snapshot()), step)
    {
      match step {
        case Schedule(key, period) =>
          var event := |jobs|;
          jobs := jobs + [NewJob(period, key)];
          InsertEvent(key, event);
        case Start(clock) => startingTime, pc := clock, Idle;
        case WakeUp(clock) => now, pc, pass := clock, Head, [];
        case Dispatch => DispatchStep();
        case Thread(b, t) => Advance(b, t);
        case Spurious(b, t) => WakeSpuriously(b, t);
        case Cancel(b) => CancelBody(b);
      }
    }

    /** A step of another thread or of the holder of a handle, if it is possible. */
    method TryFromOutside(step: Step) returns (taken: bool)
      modifies `jobs
      ensures taken ==> Enabled(old(Snapshot()), step) && FromOutside(step)
                        && Snapshot() == Apply(old(Snapshot()), step)
      ensures !taken ==> Snapshot() == old(Snapshot())
    {
      taken := FromOutside(step) && step.body < |jobs|;
      if taken {
        match step {
          case Thread(b, t) =>
            taken := CanMove(jobs[b], t);
            if taken {
              Advance(b, t);
            }
          case Spurious(b, t) =>
            taken := t < |jobs[b].threads| && jobs[b].threads[t].Waiting?;
            if taken {
              WakeSpuriously(b, t);
            }
          case Cancel(b) => CancelBody(b);
        }
      }
    }

    /** Whatever the other threads and the holders of handles do between two steps of the dispatcher. */
    method Interfere(wanted: seq<Step>) returns (ghost steps: seq<Step>)
      requires Inv(Snapshot()) && Calm(Snapshot())
      modifies `jobs
      ensures Inv(Snapshot()) && Calm(Snapshot()) && Measure(Snapshot()) == Measure(old(Snapshot()))
      ensures Possible(old(Snapshot()), steps) && Snapshot() == After(old(Snapshot()), steps)
    {
      steps := [];
      for k := 0 to |wanted|
        invariant Inv(Snapshot()) && Calm(Snapshot()) && Measure(Snapshot()) == Measure(old(Snapshot()))
        invariant Possible(old(Snapshot()), steps) && Snapshot() == After(old(Snapshot()), steps)
      {
        ghost var s := Snapshot();
        var taken := TryFromOutside(wanted[k]);
        if taken {
          StepKeepsInv(s, wanted[k]);
          OutsideKeepsMeasure(s, wanted[k]);
          OutsideKeepsCalm(s, wanted[k]);
          AfterOne(old(Snapshot()), steps, wanted[k]);
          steps := steps + [wanted[k]];
        }
      }
    }

    /** One turn of `runSchedule`: the dispatcher wakes up and works off what is due, while the other
        threads do what they like in between. If every body due is tame, which PassBoundedExactly shows to
        be necessary, it comes to an end, with nothing due left in the queue. */
    method RunPass(clock: int, meanwhile: seq<seq<Step>>) returns (ghost steps: seq<Step>)
      requires Inv(Snapshot()) && pc.Idle? && Calm(Apply(Snapshot(), WakeUp(clock)))
      modifies this
      ensures Inv(Snapshot()) && pc.Idle?
      ensures Possible(old(Snapshot()), steps) && Snapshot() == After(old(Snapshot()), steps)
      ensures steps != [] && steps[0] == WakeUp(clock)
      ensures forall e :: e in events ==> startingTime + e.time > clock
    {
      now, pc, pass := clock, Head, [];
      steps := [WakeUp(clock)];
      var turn := 0;
      while !pc.Idle?
        invariant Inv(Snapshot()) && Calm(Snapshot()) && now == clock && (pc.Idle? || Dispatching(pc))
        invariant Possible(old(Snapshot()), steps) && Snapshot() == After(old(Snapshot()), steps)
        invariant steps != [] && steps[0] == WakeUp(clock)
        invariant pc.Idle? ==> forall e :: e in events ==> startingTime + e.time > now
        decreases Measure(Snapshot())
      {
        ghost var outside := Interfere(if turn < |meanwhile| then meanwhile[turn] else []);
        turn := turn + 1;
        AfterMore(old(Snapshot()), steps, outside);
        steps := steps + outside;
        ghost var s := Snapshot();
        DispatchStepOk(s);
        DispatchStep();
        AfterOne(old(Snapshot()), steps, Dispatch);
        steps := steps + [Dispatch];
      }
    }

    /** Any interleaving of the dispatcher, the threads, the callers and the holders of handles. */
    method Interleave(schedule: seq<Step>)
      requires Possible(Snapshot(), schedule)
      modifies this
      ensures Snapshot() == After(old(Snapshot()), schedule)
    {
      var k := 0;
      while k < |schedule|
        invariant k <= |schedule| && Possible(Snapshot(), schedule[k..])
        invariant After(Snapshot(), schedule[k..]) == After(old(Snapshot()), schedule)
      {
        assert schedule[k..][1..] == schedule[k + 1..];
        Perform(schedule[k]);
        k := k + 1;
      }
    }
  }
}
