// That every run of the stage barrier comes to an end, how it ends, and what an error makes of it. Only
// the results on errors assume that no wait returns without a notification.

module BarrierProgress {
  import opened StageBarrier
  import opened BarrierTheorems

  // ----- what holds even with spurious wakeups

  predicate MasterFree(s: State) {
    match s.master
    case ToPublish(stage) => stage != SYNCHRONIZE && !s.failure
    case Collecting(stage, got) => stage == s.runStage != SYNCHRONIZE && got <= |s.runners| && !s.failure
    case TimedOut(_) => !s.failure
    case Done(failed) => failed == s.failure && (!failed ==> s.runStage == FINAL)
  }

  predicate RunnerFree(r: Runner, stage: Stage, failure: bool) {
    && (r.last == FINAL ==> r.pc.AtPost? || r.pc.Returned?)
    && (r.pc == Waiting(false) ==> r.last == stage && !failure)
  }

  predicate FreeInv(s: State) {
    && MasterFree(s)
    && forall i :: 0 <= i < |s.runners| ==> RunnerFree(s.runners[i], s.runStage, s.failure)
  }

  lemma StepKeepsFreeInv(s: State, step: Step)
    requires FreeInv(s) && Enabled(s, step)
    ensures FreeInv(Apply(s, step))
    ensures |Apply(s, step).runners| == |s.runners|
  {
    var t := Apply(s, step);
    forall i | 0 <= i < |t.runners| ensures RunnerFree(t.runners[i], t.runStage, t.failure) {
      assert RunnerFree(s.runners[i], s.runStage, s.failure);
    }
  }

  lemma {:induction false} RunKeepsFreeInv(s: State, steps: seq<Step>)
    requires FreeInv(s) && Possible(s, steps)
    ensures FreeInv(After(s, steps))
    ensures |After(s, steps).runners| == |s.runners|
    decreases steps
  {
    if steps == [] {
    } else {
      StepKeepsFreeInv(s, steps[0]);
      RunKeepsFreeInv(Apply(s, steps[0]), steps[1..]);
    }
  }

  // ----- no lost wakeup

  /** A runner that waits without having been notified has run the current stage, no failure has been
      broadcast and the master has not returned: it has not missed anything, and it is not forgotten. */
  lemma NoLostWakeup(n: nat, steps: seq<Step>, i: nat)
    requires i < n && Possible(Initial(n), steps)
    ensures var s := After(Initial(n), steps);
      && i < |s.runners|
      && (s.runners[i].pc == Waiting(false) ==>
            s.runners[i].last == s.runStage && !s.failure && !s.master.Done?)
  {
    RunKeepsFreeInv(Initial(n), steps);
    var s := After(Initial(n), steps);
    assert RunnerFree(s.runners[i], s.runStage, s.failure);
  }

  // ----- every run ends

  /** How many steps a runner can take before it waits un-notified or returns, if nothing is published. */
  function StepsLeft(r: Runner, stage: Stage, failure: bool): nat {
    match r.pc
    case Returned(_) => 0
    case Waiting(notified) => if failure then 1 else if notified then 4 else 0
    case AtLock => if failure || r.last == stage then 1 else 4
    case AtPost => if failure || r.last == stage then 2 else 5
    case Running(running) => if failure || running == stage then 3 else 6
  }

  function AllStepsLeft(rs: seq<Runner>, stage: Stage, failure: bool): nat {
    if rs == [] then 0 else StepsLeft(rs[0], stage, failure) + AllStepsLeft(rs[1..], stage, failure)
  }

  /** What publishing, collecting and finishing one stage costs: the master's own steps, and up to four
      more steps for each runner. */
  function StageCost(n: nat): nat {
    5 * n + 2
  }

  function StagesCost(stage: Stage, n: nat): nat {
    match stage
    case INIT => 3 * StageCost(n)
    case NORMAL => 2 * StageCost(n)
    case FINAL => StageCost(n)
    case SYNCHRONIZE => 0
  }

  /** The steps the master can still take, and those it can still cause; the last n are for a broadcast. */
  function MasterLeft(s: State): nat {
    var n := |s.runners|;
    match s.master
    case ToPublish(stage) => StagesCost(stage, n) + n
    case Collecting(stage, got) =>
      (if stage == INIT then 2 * StageCost(n) else if stage == NORMAL then StageCost(n) else 0)
      + (if got < n then n - got else 0) + 1 + n
    case TimedOut(_) => 1 + n
    case Done(_) => 0
  }

  function Left(s: State): nat {
    MasterLeft(s) + AllStepsLeft(s.runners, s.runStage, s.failure)
  }

  lemma {:induction false} StepsLeftUpdate(rs: seq<Runner>, i: nat, r: Runner, stage: Stage, failure: bool)
    requires i < |rs|
    ensures AllStepsLeft(rs[i := r], stage, failure) + StepsLeft(rs[i], stage, failure)
         == AllStepsLeft(rs, stage, failure) + StepsLeft(r, stage, failure)
  {
    if i == 0 {
      assert rs[i := r][1..] == rs[1..];
    } else {
      StepsLeftUpdate(rs[1..], i - 1, r, stage, failure);
      assert rs[i := r][1..] == rs[1..][i - 1 := r];
    }
  }

  lemma {:induction false} StepsLeftBound(rs: seq<Runner>, stage: Stage, failure: bool)
    ensures AllStepsLeft(rs, stage, failure) <= (if failure then 3 else 6) * |rs|
  {
    if rs == [] {
    } else {
      StepsLeftBound(rs[1..], stage, failure);
    }
  }

  /** A new stage gives each runner at most four more steps, a failure at most one. */
  lemma {:induction false} NotifiedStepsLeft(rs: seq<Runner>, before: Stage, after: Stage, failure: bool)
    requires failure ==> before == after
    ensures AllStepsLeft(NotifyAll(rs), after, failure)
         <= AllStepsLeft(rs, before, false) + (if failure then 1 else 4) * |rs|
  {
    if rs == [] {
    } else {
      NotifiedStepsLeft(rs[1..], before, after, failure);
    }
  }

  /** A step of a runner uses up one of its steps; woken for nothing, it gains three. */
  lemma RunnerUsesOneUp(s: State, i: nat, step: Step)
    requires FreeInv(s) && i < |s.runners| && Enabled(s, step)
    requires step in {Enter(i), Wake(i), SpuriousWake(i), Run(i, true), Run(i, false), Post(i)}
    ensures Left(Apply(s, step)) + 1 <= Left(s) + (if step.SpuriousWake? then 4 else 0)
  {
    assert RunnerFree(s.runners[i], s.runStage, s.failure);
    StepsLeftUpdate(s.runners, i, RunnerStep(s, s.runners[i], step), s.runStage, s.failure);
  }

  lemma StepUsesOneUp(s: State, step: Step)
    requires FreeInv(s) && Enabled(s, step)
    ensures Left(Apply(s, step)) + 1 <= Left(s) + (if step.SpuriousWake? then 4 else 0)
  {
    match step
    case Publish => NotifiedStepsLeft(s.runners, s.runStage, s.master.stage, false);
    case Broadcast => NotifiedStepsLeft(s.runners, s.runStage, s.runStage, true);
    case Collect =>
    case FinishStage =>
    case TimeOut =>
    case Enter(i) => RunnerUsesOneUp(s, i, step);
    case Wake(i) => RunnerUsesOneUp(s, i, step);
    case SpuriousWake(i) => RunnerUsesOneUp(s, i, step);
    case Run(i, ok) => RunnerUsesOneUp(s, i, step);
    case Post(i) => RunnerUsesOneUp(s, i, step);
  }

  function SpuriousWakes(steps: seq<Step>): nat {
    if steps == [] then 0 else (if steps[0].SpuriousWake? then 1 else 0) + SpuriousWakes(steps[1..])
  }

  lemma {:induction false} RunIsShort(s: State, steps: seq<Step>)
    requires FreeInv(s) && Possible(s, steps)
    ensures |steps| + Left(After(s, steps)) <= Left(s) + 4 * SpuriousWakes(steps)
    decreases steps
  {
    if steps == [] {
    } else {
      StepKeepsFreeInv(s, steps[0]);
      StepUsesOneUp(s, steps[0]);
      RunIsShort(Apply(s, steps[0]), steps[1..]);
    }
  }

  /** No step is possible any more, unless a wait returns for no reason. */
  ghost predicate AtRest(s: State) {
    forall step: Step :: Enabled(s, step) ==> step.SpuriousWake?
  }

  lemma MasterCanMove(s: State)
    requires MasterFree(s) && !s.master.Done?
    ensures !AtRest(s)
  {
    match s.master {
      case ToPublish(_) => assert Enabled(s, Publish);
      case Collecting(_, got) => assert Enabled(s, if got < |s.runners| then TimeOut else FinishStage);
      case TimedOut(_) => assert Enabled(s, Broadcast);
    }
  }

  /** A runner that has not returned after the master is done can always take a step. */
  lemma RunnerCanMove(s: State, i: nat)
    requires FreeInv(s) && s.master.Done? && i < |s.runners| && !s.runners[i].pc.Returned?
    ensures !AtRest(s)
  {
    assert RunnerFree(s.runners[i], s.runStage, s.failure);
    match s.runners[i].pc {
      case AtLock => assert Enabled(s, Enter(i));
      case Waiting(_) => assert Enabled(s, Wake(i));
      case Running(_) => assert Enabled(s, Run(i, true));
      case AtPost => assert Enabled(s, Post(i));
    }
  }

  lemma RestIsTheEnd(s: State)
    requires FreeInv(s) && AtRest(s)
    ensures s.master.Done? && forall i :: 0 <= i < |s.runners| ==> s.runners[i].pc.Returned?
  {
    if !s.master.Done? {
      MasterCanMove(s);
    } else {
      forall i | 0 <= i < |s.runners| ensures s.runners[i].pc.Returned? {
        if !s.runners[i].pc.Returned? {
          RunnerCanMove(s, i);
        }
      }
    }
  }

  /** Every run is short: with n runners it has at most 17 n + 6 steps, and four more for each wait that
      returned for no reason. And when no step is left, `runAllStages` and every runner have returned. */
  lemma EveryRunEnds(n: nat, steps: seq<Step>)
    requires Possible(Initial(n), steps)
    ensures |steps| <= 17 * n + 6 + 4 * SpuriousWakes(steps)
    ensures var s := After(Initial(n), steps);
      AtRest(s) ==> s.master.Done? && |s.runners| == n
                    && forall i :: 0 <= i < n ==> s.runners[i].pc.Returned?
  {
    InitialStepsLeft(n);
    RunIsShort(Initial(n), steps);
    RunKeepsFreeInv(Initial(n), steps);
    if AtRest(After(Initial(n), steps)) {
      RestIsTheEnd(After(Initial(n), steps));
    }
  }

  lemma {:induction false} InitialStepsLeft(n: nat)
    ensures AllStepsLeft(seq(n, _ => FRESH_RUNNER), SYNCHRONIZE, false) == n
  {
    if n == 0 {
    } else {
      InitialStepsLeft(n - 1);
      assert seq(n, _ => FRESH_RUNNER)[1..] == seq(n - 1, _ => FRESH_RUNNER);
    }
  }

  // ----- after the master has returned

  lemma {:induction false} DoneRun(s: State, rest: seq<Step>)
    requires FreeInv(s) && s.master.Done? && Possible(s, rest)
    ensures NoSpuriousWake(rest) && SpuriousWakes(rest) == 0
    ensures After(s, rest).master == s.master
    decreases rest
  {
    if rest == [] {
    } else {
      StepKeepsFreeInv(s, rest[0]);
      DoneRun(Apply(s, rest[0]), rest[1..]);
    }
  }

  lemma {:induction false} AllReturnedStepsLeft(rs: seq<Runner>, stage: Stage, failure: bool)
    requires forall i :: 0 <= i < |rs| ==> rs[i].pc.Returned?
    ensures AllStepsLeft(rs, stage, failure) == 0
  {
    if rs == [] {
    } else {
      AllReturnedStepsLeft(rs[1..], stage, failure);
    }
  }

  /** Without spurious wakeups a master that has returned leaves each runner at most three steps. */
  lemma DoneStepsLeft(s: State)
    requires Inv(s) && s.master.Done?
    ensures AllStepsLeft(s.runners, s.runStage, s.failure) <= 3 * |s.runners|
  {
    if s.failure {
      StepsLeftBound(s.runners, s.runStage, true);
    } else {
      forall i | 0 <= i < |s.runners| ensures s.runners[i].pc.Returned? {
        assert RunnerOk(s.runners[i], Rank(s.runStage), s.failure);
      }
      AllReturnedStepsLeft(s.runners, s.runStage, false);
    }
  }

  /** Once `runAllStages` has returned, with either result, nobody is left behind: no wait can return for
      no reason any more, each runner has at most six steps left, three if none ever did, and when no
      step is left every runner has returned. */
  lemma NobodyLeftBehind(n: nat, steps: seq<Step>, rest: seq<Step>)
    requires Possible(Initial(n), steps) && After(Initial(n), steps).master.Done?
    requires Possible(After(Initial(n), steps), rest)
    ensures NoSpuriousWake(rest)
    ensures |rest| <= 6 * n && (NoSpuriousWake(steps) ==> |rest| <= 3 * n)
    ensures var s := After(After(Initial(n), steps), rest);
      AtRest(s) ==> forall i :: 0 <= i < |s.runners| ==> s.runners[i].pc.Returned?
  {
    RunKeepsFreeInv(Initial(n), steps);
    var done := After(Initial(n), steps);
    RunIsShort(done, rest);
    DoneRun(done, rest);
    StepsLeftBound(done.runners, done.runStage, done.failure);
    if NoSpuriousWake(steps) {
      InitialInv(n);
      RunKeepsInv(Initial(n), steps);
      DoneStepsLeft(done);
    }
    RunKeepsFreeInv(done, rest);
    if AtRest(After(done, rest)) {
      RestIsTheEnd(After(done, rest));
    }
  }

  // ----- a notified runner

  lemma {:induction false} StaysNotified(s: State, rest: seq<Step>, i: nat)
    requires Possible(s, rest) && Wake(i) !in rest && i < |s.runners| && s.runners[i].pc == Waiting(true)
    ensures i < |After(s, rest).runners| && After(s, rest).runners[i] == s.runners[i]
    decreases rest
  {
    if rest == [] {
    } else {
      assert rest[0] in rest;
      StaysNotified(Apply(s, rest[0]), rest[1..], i);
    }
  }

  /** A runner that waits when a stage is published is woken and begins that stage: in any continuation its next
      step is to do so, unless a failure has been broadcast by then, and then it is to return true. */
  lemma PublishedIsBegun(n: nat, steps: seq<Step>, rest: seq<Step>, i: nat)
    requires Possible(Initial(n), steps) && NoSpuriousWake(steps) && Enabled(After(Initial(n), steps), Publish)
    requires i < |After(Initial(n), steps).runners| && After(Initial(n), steps).runners[i].pc.Waiting?
    requires Possible(Apply(After(Initial(n), steps), Publish), rest)
    requires NoSpuriousWake(rest) && Wake(i) !in rest
    ensures var s := After(Initial(n), steps); var u := After(Apply(s, Publish), rest);
      && Enabled(u, Wake(i))
      && var r := Apply(u, Wake(i)).runners[i];
      && (u.failure ==> r.pc == Returned(true) && r.begun == s.runners[i].begun)
      && (!u.failure ==> r.pc == Running(s.master.stage) && r.begun == s.runners[i].begun + [s.master.stage])
  {
    InitialInv(n);
    RunKeepsInv(Initial(n), steps);
    var s := After(Initial(n), steps);
    assert RunnerOk(s.runners[i], Rank(s.runStage), s.failure);
    var t := Apply(s, Publish);
    StepKeepsInv(s, Publish);
    StaysNotified(t, rest, i);
    RunKeepsInv(t, rest);
    var u := After(t, rest);
    assert RunnerOk(t.runners[i], Rank(t.runStage), t.failure);
    assert RunnerOk(u.runners[i], Rank(u.runStage), u.failure);
    SameRank(u.runStage, t.runStage);
  }

  lemma SameRank(a: Stage, b: Stage)
    ensures Rank(a) == Rank(b) ==> a == b
  {
  }

  // ----- agreement on failure

  /** Runner i has returned because its objects reported an error in the stage it last began. */
  predicate ReportedError(s: State, i: nat) {
    i < |s.runners| && s.runners[i].pc == Returned(true) && |s.runners[i].begun| == |s.runners[i].posted| + 1
  }

  lemma {:induction false} ErrorsLast(s: State, steps: seq<Step>, i: nat)
    requires Possible(s, steps) && ReportedError(s, i)
    ensures ReportedError(After(s, steps), i)
    ensures After(s, steps).runners[i] == s.runners[i]
    decreases steps
  {
    if steps == [] {
    } else {
      ErrorsLast(Apply(s, steps[0]), steps[1..], i);
    }
  }

  lemma ErrorStep(s: State, i: nat)
    requires Inv(s) && Enabled(s, Run(i, false))
    ensures Inv(Apply(s, Run(i, false))) && ReportedError(Apply(s, Run(i, false)), i)
    ensures s.runners[i].pc == Running(s.runStage)
  {
    StepKeepsInv(s, Run(i, false));
    assert RunnerOk(s.runners[i], Rank(s.runStage), s.failure);
  }

  /** A runner whose objects report an error returns true, without having posted the stage: it has begun one
      stage more than it has posted, and the semaphore and everyone else are as before. */
  lemma ErrorIsReported(n: nat, steps: seq<Step>, i: nat)
    requires Possible(Initial(n), steps) && NoSpuriousWake(steps)
    requires Enabled(After(Initial(n), steps), Run(i, false))
    ensures var s := After(Initial(n), steps); var t := Apply(s, Run(i, false));
      && ReportedError(t, i) && t == s.(runners := t.runners)
      && |t.runners| == |s.runners| && t.runners[i].begun == s.runners[i].begun
      && forall j :: 0 <= j < |s.runners| && j != i ==> t.runners[j] == s.runners[j]
  {
    InitialInv(n);
    RunKeepsInv(Initial(n), steps);
    ErrorStep(After(Initial(n), steps), i);
  }

  /** Afterwards the published stage stays that stage, and no runner begins a later one. */
  lemma ReportedStops(s: State, rest: seq<Step>, i: nat)
    requires Inv(s) && FreeInv(s) && ReportedError(s, i) && Possible(s, rest) && NoSpuriousWake(rest)
    ensures var t := After(s, rest);
      && t.master != Done(false) && (AtRest(t) ==> t.master == Done(true))
      && t.runStage == s.runStage && Rank(s.runStage) == |s.runners[i].begun|
      && forall j :: 0 <= j < |t.runners| ==> |t.runners[j].begun| <= |s.runners[i].begun|
  {
    RunKeepsInv(s, rest);
    ErrorsLast(s, rest, i);
    var t := After(s, rest);
    assert RunnerOk(s.runners[i], Rank(s.runStage), s.failure);
    assert RunnerOk(t.runners[i], Rank(t.runStage), t.failure);
    if AtRest(t) {
      RunKeepsFreeInv(s, rest);
      RestIsTheEnd(t);
    }
    forall j | 0 <= j < |t.runners| ensures |t.runners[j].begun| <= |s.runners[i].begun| {
      assert RunnerOk(t.runners[j], Rank(t.runStage), t.failure);
    }
  }

  lemma ErrorStops(s: State, rest: seq<Step>, i: nat)
    requires Inv(s) && FreeInv(s) && Possible(s, rest) && NoSpuriousWake(rest)
    requires rest != [] && rest[0] == Run(i, false)
    ensures i < |s.runners| && s.runners[i].pc == Running(s.runStage)
    ensures var t := After(s, rest);
      && t.master != Done(false) && (AtRest(t) ==> t.master == Done(true))
      && t.runStage == s.runStage && Rank(s.runStage) == |s.runners[i].begun|
      && forall j :: 0 <= j < |t.runners| ==> |t.runners[j].begun| <= |s.runners[i].begun|
  {
    ErrorStep(s, i);
    StepKeepsFreeInv(s, Run(i, false));
    assert forall m :: 0 <= m < |rest[1..]| ==> rest[1..][m] == rest[m + 1];
    ReportedStops(Apply(s, Run(i, false)), rest[1..], i);
  }

  /** If in some run the objects of runner i report an error, then the stage they were in is the last: it stays
      the published one, no runner begins a later one, and `runAllStages` returns true: it does not return
      false, and at the end of the run, which EveryRunEnds bounds, it has returned. */
  lemma FailStop(n: nat, steps: seq<Step>, k: nat, i: nat)
    requires Possible(Initial(n), steps) && NoSpuriousWake(steps)
    requires k < |steps| && steps[k] == Run(i, false)
    ensures Possible(Initial(n), steps[..k]) && i < |After(Initial(n), steps[..k]).runners|
    ensures var s, t := After(Initial(n), steps[..k]), After(Initial(n), steps);
      && t.master != Done(false) && (AtRest(t) ==> t.master == Done(true))
      && t.runStage == s.runStage && s.runners[i].pc == Running(s.runStage)
      && Rank(s.runStage) == |s.runners[i].begun|
      && forall j :: 0 <= j < |t.runners| ==> |t.runners[j].begun| <= |s.runners[i].begun|
  {
    PossibleSplit(Initial(n), steps, k);
    InitialInv(n);
    RunKeepsInv(Initial(n), steps[..k]);
    RunKeepsFreeInv(Initial(n), steps[..k]);
    ErrorStops(After(Initial(n), steps[..k]), steps[k..], i);
  }

  /** The failure flag is never taken back, and while it is set no runner begins a stage. */
  lemma {:induction false} FailureStays(s: State, steps: seq<Step>, i: nat)
    requires Possible(s, steps) && s.failure && i < |s.runners|
    ensures After(s, steps).failure
    ensures i < |After(s, steps).runners| && After(s, steps).runners[i].begun == s.runners[i].begun
    decreases steps
  {
    if steps == [] {
    } else {
      FailureStays(Apply(s, steps[0]), steps[1..], i);
    }
  }

  // ----- a timeout is never forced

  /** Only the master's timeout could go on, or a wait that returns for no reason. */
  ghost predicate OnlyTimeOut(s: State) {
    forall step: Step :: Enabled(s, step) ==> step.TimeOut? || step.SpuriousWake?
  }

  lemma {:induction false} SomeoneUnfinished(rs: seq<Runner>, rank: nat) returns (i: nat)
    requires Finished(rs, rank) < |rs|
    ensures i < |rs| && |rs[i].posted| != rank
  {
    if |rs[0].posted| != rank {
      i := 0;
    } else {
      i := SomeoneUnfinished(rs[1..], rank);
      i := i + 1;
    }
  }

  /** A runner that holds up a stage can go on, unless it has reported an error. */
  lemma HoldupCanMove(s: State, i: nat)
    requires Inv(s) && s.master.Collecting? && !ReportedError(s, i)
    requires i < |s.runners| && |s.runners[i].posted| != Rank(s.runStage)
    ensures !OnlyTimeOut(s)
  {
    assert RunnerOk(s.runners[i], Rank(s.runStage), s.failure);
    match s.runners[i].pc {
      case AtLock => assert Enabled(s, Enter(i));
      case Waiting(_) => assert Enabled(s, Wake(i));
      case Running(_) => assert Enabled(s, Run(i, true));
      case AtPost => assert Enabled(s, Post(i));
    }
  }

  /** The master's steps other than its timeout. */
  lemma MasterNeedNotTimeOut(s: State)
    requires Inv(s) && !s.master.Done?
    requires s.master.Collecting? ==> s.master.got == |s.runners| || s.posts > 0
    ensures !OnlyTimeOut(s)
  {
    match s.master {
      case ToPublish(_) => assert Enabled(s, Publish);
      case TimedOut(_) => assert Enabled(s, Broadcast);
      case Collecting(_, got) => assert Enabled(s, if got == |s.runners| then FinishStage else Collect);
    }
  }

  /** The master is driven to its timeout only by an error: without spurious wakeups, if it has not returned
      and nothing but the timeout is possible, some runner has reported an error. */
  lemma TimeOutNeverForced(n: nat, steps: seq<Step>)
    requires Possible(Initial(n), steps) && NoSpuriousWake(steps)
    requires !After(Initial(n), steps).master.Done? && OnlyTimeOut(After(Initial(n), steps))
    ensures exists i :: ReportedError(After(Initial(n), steps), i)
  {
    InitialInv(n);
    RunKeepsInv(Initial(n), steps);
    var s := After(Initial(n), steps);
    if s.master.Collecting? && s.master.got < |s.runners| && s.posts == 0 {
      var i := SomeoneUnfinished(s.runners, Rank(s.runStage));
      if !ReportedError(s, i) {
        HoldupCanMove(s, i);
      }
    } else {
      MasterNeedNotTimeOut(s);
    }
  }

  /** No object reports an error, the master does not time out, and no wait returns for no reason. */
  predicate Smooth(steps: seq<Step>) {
    forall k :: 0 <= k < |steps| ==> SmoothStep(steps[k])
  }

  predicate SmoothStep(step: Step) {
    !step.TimeOut? && !step.SpuriousWake? && (step.Run? ==> step.ok)
  }

  predicate NoTrouble(s: State) {
    && !s.failure && !s.master.TimedOut? && s.master != Done(true)
    && forall i :: 0 <= i < |s.runners| ==> s.runners[i].pc != Returned(true)
  }

  lemma {:induction false} SmoothRun(s: State, steps: seq<Step>)
    requires NoTrouble(s) && Possible(s, steps) && Smooth(steps)
    ensures NoTrouble(After(s, steps)) && NoSpuriousWake(steps)
    decreases steps
  {
    if steps == [] {
    } else {
      assert SmoothStep(steps[0]);
      assert forall k :: 0 <= k < |steps[1..]| ==> steps[1..][k] == steps[k + 1];
      SmoothRun(Apply(s, steps[0]), steps[1..]);
      assert forall k :: 0 <= k < |steps| ==> SmoothStep(steps[k]);
    }
  }

  /** So a run without errors and timeouts, carried on as far as that goes, ends with `runAllStages` having
      returned false, and every runner too, all stages run. */
  lemma SmoothRunSucceeds(n: nat, steps: seq<Step>)
    requires Possible(Initial(n), steps) && Smooth(steps) && OnlyTimeOut(After(Initial(n), steps))
    ensures var s := After(Initial(n), steps);
      && s.master == Done(false) && |s.runners| == n
      && forall i :: 0 <= i < n ==> s.runners[i].pc == Returned(false) && s.runners[i].begun == ALL_STAGES
  {
    SmoothRun(Initial(n), steps);
    RunKeepsFreeInv(Initial(n), steps);
    var s := After(Initial(n), steps);
    if !s.master.Done? {
      TimeOutNeverForced(n, steps);
    }
    forall i | 0 <= i < n ensures s.runners[i].pc == Returned(false) && s.runners[i].begun == ALL_STAGES {
      TotalSuccess(n, steps, i);
    }
  }

  predicate GivenUp(s: State) {
    s.master.TimedOut? || s.master == Done(true)
  }

  lemma {:induction false} GivenUpStays(s: State, steps: seq<Step>)
    requires GivenUp(s) && Possible(s, steps)
    ensures GivenUp(After(s, steps))
    decreases steps
  {
    if steps == [] {
    } else {
      GivenUpStays(Apply(s, steps[0]), steps[1..]);
    }
  }

  /** `runAllStages` returns true if and only if the master has run into a timeout: once it has, it does not
      return false, and at the end of the run it has returned true; and without one it never returns true. */
  lemma TrueExactlyOnTimeOut(n: nat, steps: seq<Step>)
    requires Possible(Initial(n), steps) && AtRest(After(Initial(n), steps))
    ensures After(Initial(n), steps).master == Done(TimeOut in steps)
  {
    RunKeepsFreeInv(Initial(n), steps);
    RestIsTheEnd(After(Initial(n), steps));
    if k :| 0 <= k < |steps| && steps[k] == TimeOut {
      PossibleSplit(Initial(n), steps, k);
      assert steps[k..][0] == TimeOut;
      GivenUpStays(Apply(After(Initial(n), steps[..k]), TimeOut), steps[k..][1..]);
    } else {
      NeverGivenUp(Initial(n), steps);
    }
  }

  lemma {:induction false} NeverGivenUp(s: State, steps: seq<Step>)
    requires !GivenUp(s) && Possible(s, steps) && TimeOut !in steps
    ensures !GivenUp(After(s, steps))
    decreases steps
  {
    if steps == [] {
    } else {
      assert steps[0] in steps;
      NeverGivenUp(Apply(s, steps[0]), steps[1..]);
    }
  }
}
