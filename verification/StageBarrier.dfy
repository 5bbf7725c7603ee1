// Model of src/Synchronization/SynchronizedRunnerMaster.cpp and SynchronizedRunner.cpp: one master
// takes N runner processes through the stages INIT, NORMAL and FINAL. Every critical section under
// the shared mutex, every semaphore operation and every run of the runner's objects is one step.

module StageBarrier {

  datatype Stage = INIT | NORMAL | FINAL | SYNCHRONIZE

  /** How many stages have been published when `stage` is the current one. */
  function Rank(stage: Stage): nat {
    match stage
    case SYNCHRONIZE => 0
    case INIT => 1
    case NORMAL => 2
    case FINAL => 3
  }

  const ALL_STAGES := [INIT, NORMAL, FINAL]

  datatype RunnerPc =
    | AtLock                    // about to take the mutex
    | Waiting(notified: bool)   // inside the condition's wait
    | Running(stage: Stage)     // its objects run the stage, mutex released
    | AtPost                    // stage done, semaphore not yet posted
    | Returned(failed: bool)

  /** `last` is lastRunStage; `begun` and `posted` record the stages begun and posted so far. */
  datatype Runner = Runner(pc: RunnerPc, last: Stage, begun: seq<Stage>, posted: seq<Stage>)

  datatype MasterPc =
    | ToPublish(stage: Stage)
    | Collecting(stage: Stage, got: nat)
    | TimedOut(stage: Stage)
    | Done(failed: bool)

  datatype State = State(runStage: Stage, failure: bool, posts: nat, master: MasterPc, runners: seq<Runner>)

  datatype Step =
    | Publish
    | Collect
    | FinishStage
    | TimeOut
    | Broadcast
    | Enter(i: nat)
    | Wake(i: nat)
    | SpuriousWake(i: nat)
    | Run(i: nat, ok: bool)
    | Post(i: nat)

  const FRESH_RUNNER := Runner(AtLock, SYNCHRONIZE, [], [])

  function Initial(n: nat): State {
    State(SYNCHRONIZE, false, 0, ToPublish(INIT), seq(n, _ => FRESH_RUNNER))
  }

  // ----- the steps as functions

  function Notified(r: Runner): Runner {
    if r.pc.Waiting? then r.(pc := Waiting(true)) else r
  }

  /** notify_all. */
  function NotifyAll(rs: seq<Runner>): (out: seq<Runner>)
    ensures |out| == |rs|
    ensures forall i :: 0 <= i < |rs| ==> out[i] == Notified(rs[i])
  {
    if rs == [] then [] else [Notified(rs[0])] + NotifyAll(rs[1..])
  }

  /** A runner with the mutex in its hands that has decided to look at the stage. */
  function Begin(s: State, r: Runner): Runner {
    if s.failure then r.(pc := Returned(true))
    else r.(pc := Running(s.runStage), begun := r.begun + [s.runStage])
  }

  function AfterStage(stage: Stage): MasterPc {
    match stage
    case INIT => ToPublish(NORMAL)
    case NORMAL => ToPublish(FINAL)
    case _ => Done(false)
  }

  predicate Enabled(s: State, step: Step) {
    match step
    case Publish => s.master.ToPublish?
    case Collect => s.master.Collecting? && s.master.got < |s.runners| && s.posts > 0
    case FinishStage => s.master.Collecting? && s.master.got == |s.runners|
    case TimeOut => s.master.Collecting? && s.master.got < |s.runners|
    case Broadcast => s.master.TimedOut?
    case Enter(i) => i < |s.runners| && s.runners[i].pc.AtLock?
    case Wake(i) => i < |s.runners| && s.runners[i].pc == Waiting(true)
    case SpuriousWake(i) => i < |s.runners| && s.runners[i].pc == Waiting(false)
    case Run(i, _) => i < |s.runners| && s.runners[i].pc.Running?
    case Post(i) => i < |s.runners| && s.runners[i].pc.AtPost?
  }

  function RunnerStep(s: State, r: Runner, step: Step): Runner {
    match step
    case Enter(_) =>
      if s.failure || s.runStage != r.last then Begin(s, r) else r.(pc := Waiting(false))
    case Wake(_) => Begin(s, r)
    case SpuriousWake(_) => Begin(s, r)
    case Run(_, ok) =>
      if r.pc.Running? && ok then r.(pc := AtPost, last := r.pc.stage) else r.(pc := Returned(true))
    case Post(_) =>
      r.(pc := if r.last == FINAL then Returned(false) else AtLock, posted := r.posted + [r.last])
    case _ => r
  }

  function Apply(s: State, step: Step): State
    requires Enabled(s, step)
  {
    match step
    case Publish =>
      s.(runStage := s.master.stage, runners := NotifyAll(s.runners), master := Collecting(s.master.stage, 0))
    case Collect => s.(posts := s.posts - 1, master := s.master.(got := s.master.got + 1))
    case FinishStage => s.(master := AfterStage(s.master.stage))
    case TimeOut => s.(master := TimedOut(s.master.stage))
    case Broadcast => s.(failure := true, runners := NotifyAll(s.runners), master := Done(true))
    case Post(i) => Moved(s, i, step).(posts := s.posts + 1)
    case Enter(i) => Moved(s, i, step)
    case Wake(i) => Moved(s, i, step)
    case SpuriousWake(i) => Moved(s, i, step)
    case Run(i, _) => Moved(s, i, step)
  }

  function Moved(s: State, i: nat, step: Step): State
    requires i < |s.runners|
  {
    s.(runners := s.runners[i := RunnerStep(s, s.runners[i], step)])
  }

  /** Every step of the list is enabled when its turn comes. */
  predicate Possible(s: State, steps: seq<Step>)
    decreases steps
  {
    steps == [] || (Enabled(s, steps[0]) && Possible(Apply(s, steps[0]), steps[1..]))
  }

  function After(s: State, steps: seq<Step>): State
    requires Possible(s, steps)
    decreases steps
  {
    if steps == [] then s else After(Apply(s, steps[0]), steps[1..])
  }

  /** The condition never returns without a notification. */
  predicate NoSpuriousWake(steps: seq<Step>) {
    forall k :: 0 <= k < |steps| ==> !steps[k].SpuriousWake?
  }

  // ----- the shared memory object and the two sides that work on it

  class Synchronizer {
    var runStage: Stage
    var failure: bool
    var finishedStage: nat
    var master: MasterPc
    var runners: seq<Runner>

    ghost function Snapshot(): State
      reads this
    {
      State(runStage, failure, finishedStage, master, runners)
    }

    constructor (n: nat)
      ensures Snapshot() == Initial(n)
    {
      runStage, failure, finishedStage := SYNCHRONIZE, false, 0;
      master := ToPublish(INIT);
      runners := seq(n, _ => FRESH_RUNNER);
    }

    method NotifyWaiting()
      modifies `runners
      ensures runners == NotifyAll(old(runners))
    {
      var k := 0;
      while k < |runners|
        invariant k <= |runners| == |old(runners)|
        invariant forall i :: 0 <= i < k ==> runners[i] == Notified(old(runners)[i])
        invariant forall i :: k <= i < |runners| ==> runners[i] == old(runners)[i]
      {
        runners := runners[k := Notified(runners[k])];
        k := k + 1;
      }
    }

    /** The critical section at the start of the master's `runStage`. */
    method PublishStage()
      requires Enabled(Snapshot(), Publish)
      modifies this
      ensures Snapshot() == Apply(old(Snapshot()), Publish)
    {
      var stage := master.stage;
      runStage := stage;
      NotifyWaiting();
      master := Collecting(stage, 0);
    }

    /** One turn of the master's collecting loop; `arrived` is what the timed wait returned. */
    method CollectOne(arrived: bool)
      requires Enabled(Snapshot(), if arrived then Collect else TimeOut)
      modifies this
      ensures Snapshot() == Apply(old(Snapshot()), if arrived then Collect else TimeOut)
    {
      if arrived {
        finishedStage := finishedStage - 1;
        master := Collecting(master.stage, master.got + 1);
      } else {
        master := TimedOut(master.stage);
      }
    }

    /** `runStage` returns false, and `runAllStages` goes on to the next stage or returns false. */
    method StageFinished()
      requires Enabled(Snapshot(), FinishStage)
      modifies this
      ensures Snapshot() == Apply(old(Snapshot()), FinishStage)
    {
      match master.stage {
        case INIT => master := ToPublish(NORMAL);
        case NORMAL => master := ToPublish(FINAL);
        case _ => master := Done(false);
      }
    }

    /** The critical section after a timeout; then `runAllStages` returns true. */
    method BroadcastFailure()
      requires Enabled(Snapshot(), Broadcast)
      modifies this
      ensures Snapshot() == Apply(old(Snapshot()), Broadcast)
    {
      failure := true;
      NotifyWaiting();
      master := Done(true);
    }

    /** The runner's critical section up to the wait, if it comes to that. */
    method EnterSection(i: nat)
      requires Enabled(Snapshot(), Enter(i))
      modifies `runners
      ensures Snapshot() == Apply(old(Snapshot()), Enter(i))
    {
      var r := runners[i];
      if failure {
        runners := runners[i := r.(pc := Returned(true))];
        return;
      }
      var stage := runStage;
      if stage == r.last {
        runners := runners[i := r.(pc := Waiting(false))];
      } else {
        runners := runners[i := r.(pc := Running(stage), begun := r.begun + [stage])];
      }
    }

    /** The rest of the critical section once the wait has returned, for whatever reason. */
    method LeaveWait(i: nat, spurious: bool)
      requires Enabled(Snapshot(), if spurious then SpuriousWake(i) else Wake(i))
      modifies `runners
      ensures Snapshot() == Apply(old(Snapshot()), if spurious then SpuriousWake(i) else Wake(i))
    {
      var r := runners[i];
      if failure {
        runners := runners[i := r.(pc := Returned(true))];
        return;
      }
      var stage := runStage;
      runners := runners[i := r.(pc := Running(stage), begun := r.begun + [stage])];
    }

    /** The runner's objects have run; `ok` when none of them reported an error. */
    method RunObjects(i: nat, ok: bool)
      requires Enabled(Snapshot(), Run(i, ok))
      modifies `runners
      ensures Snapshot() == Apply(old(Snapshot()), Run(i, ok))
    {
      var r := runners[i];
      if !ok {
        runners := runners[i := r.(pc := Returned(true))];
        return;
      }
      runners := runners[i := r.(pc := AtPost, last := r.pc.stage)];
    }

    /** Posting the semaphore, and the test of the runner's loop. */
    method PostFinished(i: nat)
      requires Enabled(Snapshot(), Post(i))
      modifies this
      ensures Snapshot() == Apply(old(Snapshot()), Post(i))
    {
      var r := runners[i];
      finishedStage := finishedStage + 1;
      r := r.(posted := r.posted + [r.last]);
      runners := runners[i := r.(pc := if r.last != FINAL then AtLock else Returned(false))];
    }

    /** Any interleaving of the master and the runners. */
    method Interleave(schedule: seq<Step>)
      requires Possible(Snapshot(), schedule)
      modifies this
      ensures Snapshot() == After(old(Snapshot()), schedule)
    {
      var k := 0;
      while k < |schedule|
        invariant k <= |schedule| && Possible(Snapshot(), schedule[k..])
        invariant After(Snapshot(), schedule[k..]) == After(old(Snapshot()), schedule)
      {
        assert schedule[k..][1..] == schedule[k + 1..];
        match schedule[k] {
          case Publish => PublishStage();
          case Collect => CollectOne(true);
          case TimeOut => CollectOne(false);
          case FinishStage => StageFinished();
          case Broadcast => BroadcastFailure();
          case Enter(i) => EnterSection(i);
          case Wake(i) => LeaveWait(i, false);
          case SpuriousWake(i) => LeaveWait(i, true);
          case Run(i, ok) => RunObjects(i, ok);
          case Post(i) => PostFinished(i);
        }
        k := k + 1;
      }
    }
  }
}
