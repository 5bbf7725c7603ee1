// What the stage barrier promises over every interleaving of a master and any number of runners.

module BarrierTheorems {
  import opened StageBarrier

  // ----- the invariant

  /** The first n stages. */
  function Stages(n: nat): (r: seq<Stage>)
    ensures |r| == if n <= 3 then n else 3
    ensures forall i :: 0 <= i < |r| ==> Rank(r[i]) == i + 1
    ensures r <= ALL_STAGES
  {
    if n <= 3 then ALL_STAGES[..n] else ALL_STAGES
  }

  lemma NextStage(k: nat, stage: Stage)
    requires k < 3
    ensures Stages(k) + [stage] == Stages(k + 1) <==> Rank(stage) == k + 1
  {
    assert Stages(k + 1) == Stages(k) + [ALL_STAGES[k]];
    assert Rank(ALL_STAGES[k]) == k + 1;
    assert (Stages(k) + [stage])[k] == stage;
  }

  /** What holds of a runner that has posted `k` stages when `rank` stages have been published. */
  predicate RunnerOk(r: Runner, rank: nat, failure: bool) {
    var k := |r.posted|;
    && r.posted == Stages(k)
    && k <= rank <= k + 1
    && match r.pc
       case AtLock => r.begun == r.posted && Rank(r.last) == k < 3
       case Waiting(notified) =>
         && r.begun == r.posted && Rank(r.last) == k < 3
         && (notified <==> k < rank || failure)
       case Running(stage) =>
         r.begun == Stages(k + 1) && Rank(r.last) == k && Rank(stage) == rank == k + 1
       case AtPost => r.begun == Stages(k + 1) && Rank(r.last) == rank == k + 1
       case Returned(false) => r.begun == r.posted && k == 3
       case Returned(true) =>
         (r.begun == r.posted && failure) || (r.begun == Stages(k + 1) && rank == k + 1)
  }

  /** How many runners have posted the current stage. */
  function Finished(rs: seq<Runner>, rank: nat): nat {
    if rs == [] then 0 else (if |rs[0].posted| == rank then 1 else 0) + Finished(rs[1..], rank)
  }

  predicate AllFinished(rs: seq<Runner>, rank: nat) {
    forall i :: 0 <= i < |rs| ==> |rs[i].posted| == rank
  }

  predicate MasterOk(s: State) {
    var rank := Rank(s.runStage);
    match s.master
    case ToPublish(stage) =>
      Rank(stage) == rank + 1 && s.posts == 0 && AllFinished(s.runners, rank) && !s.failure
    case Collecting(stage, got) =>
      && stage == s.runStage && rank >= 1 && got <= |s.runners| && !s.failure
      && got + s.posts == Finished(s.runners, rank)
    case TimedOut(stage) => stage == s.runStage && rank >= 1 && !s.failure
    case Done(false) => rank == 3 && AllFinished(s.runners, 3) && !s.failure
    case Done(true) => s.failure && rank >= 1
  }

  predicate Inv(s: State) {
    && MasterOk(s)
    && forall i :: 0 <= i < |s.runners| ==> RunnerOk(s.runners[i], Rank(s.runStage), s.failure)
  }

  lemma {:induction false} FinishedCount(rs: seq<Runner>, rank: nat)
    ensures Finished(rs, rank) <= |rs|
    ensures Finished(rs, rank) == |rs| <==> AllFinished(rs, rank)
    ensures AllFinished(rs, rank) ==> Finished(rs, rank + 1) == 0
  {
    if rs == [] {
    } else {
      FinishedCount(rs[1..], rank);
      assert AllFinished(rs, rank) <==> |rs[0].posted| == rank && AllFinished(rs[1..], rank);
    }
  }

  lemma {:induction false} FinishedUpdate(rs: seq<Runner>, rank: nat, i: nat, r: Runner)
    requires i < |rs|
    ensures Finished(rs[i := r], rank) + (if |rs[i].posted| == rank then 1 else 0)
         == Finished(rs, rank) + (if |r.posted| == rank then 1 else 0)
  {
    if i == 0 {
      assert rs[i := r][1..] == rs[1..];
    } else {
      FinishedUpdate(rs[1..], rank, i - 1, r);
      assert rs[i := r][1..] == rs[1..][i - 1 := r];
    }
  }

  lemma {:induction false} NotifyCount(rs: seq<Runner>, rank: nat)
    ensures Finished(NotifyAll(rs), rank) == Finished(rs, rank)
  {
    if rs == [] {
    } else {
      NotifyCount(rs[1..], rank);
    }
  }

  lemma InitialInv(n: nat)
    ensures Inv(Initial(n))
  {
  }

  lemma PublishKeepsInv(s: State)
    requires Inv(s) && Enabled(s, Publish)
    ensures Inv(Apply(s, Publish))
  {
    var rank := Rank(s.runStage);
    FinishedCount(s.runners, rank);
    NotifyCount(s.runners, rank + 1);
    var t := Apply(s, Publish);
    forall i | 0 <= i < |t.runners| ensures RunnerOk(t.runners[i], rank + 1, false) {
      assert RunnerOk(s.runners[i], rank, false);
    }
  }

  lemma MasterKeepsInv(s: State, step: Step)
    requires Inv(s) && Enabled(s, step) && (step.Collect? || step.FinishStage? || step.TimeOut?)
    ensures Inv(Apply(s, step))
  {
    FinishedCount(s.runners, Rank(s.runStage));
  }

  lemma BroadcastKeepsInv(s: State)
    requires Inv(s) && Enabled(s, Broadcast)
    ensures Inv(Apply(s, Broadcast))
  {
    var t := Apply(s, Broadcast);
    forall i | 0 <= i < |t.runners| ensures RunnerOk(t.runners[i], Rank(t.runStage), true) {
      assert RunnerOk(s.runners[i], Rank(s.runStage), false);
    }
  }

  /** A step of one runner on its own. */
  lemma RunnerStaysOk(s: State, i: nat, step: Step)
    requires Inv(s) && i < |s.runners| && Enabled(s, step)
    requires step in {Enter(i), Wake(i), Run(i, true), Run(i, false), Post(i)}
    ensures var r := RunnerStep(s, s.runners[i], step);
      && RunnerOk(r, Rank(s.runStage), s.failure)
      && |r.posted| == |s.runners[i].posted| + (if step.Post? then 1 else 0)
  {
    var r := s.runners[i];
    var k := |r.posted|;
    assert RunnerOk(r, Rank(s.runStage), s.failure);
    if k < 3 {
      NextStage(k, s.runStage);
      NextStage(k, r.last);
    }
  }

  lemma RunnerKeepsInv(s: State, i: nat, step: Step)
    requires Inv(s) && i < |s.runners| && Enabled(s, step)
    requires step in {Enter(i), Wake(i), Run(i, true), Run(i, false), Post(i)}
    ensures Inv(Apply(s, step))
  {
    RunnerStaysOk(s, i, step);
    var r := RunnerStep(s, s.runners[i], step);
    FinishedUpdate(s.runners, Rank(s.runStage), i, r);
    assert RunnerOk(s.runners[i], Rank(s.runStage), s.failure);
  }

  lemma StepKeepsInv(s: State, step: Step)
    requires Inv(s) && Enabled(s, step) && !step.SpuriousWake?
    ensures Inv(Apply(s, step))
  {
    match step
    case Publish => PublishKeepsInv(s);
    case Broadcast => BroadcastKeepsInv(s);
    case Enter(i) => RunnerKeepsInv(s, i, step);
    case Wake(i) => RunnerKeepsInv(s, i, step);
    case Run(i, ok) => RunnerKeepsInv(s, i, step);
    case Post(i) => RunnerKeepsInv(s, i, step);
    case _ => MasterKeepsInv(s, step);
  }

  lemma {:induction false} RunKeepsInv(s: State, steps: seq<Step>)
    requires Inv(s) && Possible(s, steps) && NoSpuriousWake(steps)
    ensures Inv(After(s, steps))
    ensures |After(s, steps).runners| == |s.runners|
    decreases steps
  {
    if steps == [] {
    } else {
      StepKeepsInv(s, steps[0]);
      RunKeepsInv(Apply(s, steps[0]), steps[1..]);
    }
  }

  // ----- safety

  /** In every state reachable without spurious wakeups: what each runner has begun and posted are
      prefixes of INIT, NORMAL, FINAL, and no runner has begun stage k + 1 unless every runner has
      posted the first k stages, each of them exactly once. */
  lemma BarrierSafety(n: nat, steps: seq<Step>, i: nat, j: nat)
    requires i < n && j < n
    requires Possible(Initial(n), steps) && NoSpuriousWake(steps)
    ensures var rs := After(Initial(n), steps).runners;
      && |rs| == n
      && rs[i].posted <= rs[i].begun <= ALL_STAGES
      && rs[i].begun[..if |rs[i].begun| == 0 then 0 else |rs[i].begun| - 1] <= rs[j].posted
  {
    InitialInv(n);
    RunKeepsInv(Initial(n), steps);
    var s := After(Initial(n), steps);
    assert RunnerOk(s.runners[i], Rank(s.runStage), s.failure);
    assert RunnerOk(s.runners[j], Rank(s.runStage), s.failure);
  }

  /** When the master's `runStage` returns false, every runner has posted its stage. */
  lemma StageSuccess(n: nat, steps: seq<Step>)
    requires Possible(Initial(n), steps) && NoSpuriousWake(steps)
    requires Enabled(After(Initial(n), steps), FinishStage)
    ensures var s := After(Initial(n), steps);
      forall i :: 0 <= i < n ==> i < |s.runners| && s.runners[i].posted == Stages(Rank(s.master.stage))
  {
    InitialInv(n);
    RunKeepsInv(Initial(n), steps);
    var s := After(Initial(n), steps);
    FinishedCount(s.runners, Rank(s.runStage));
    forall i | 0 <= i < n ensures s.runners[i].posted == Stages(Rank(s.master.stage)) {
      assert RunnerOk(s.runners[i], Rank(s.runStage), s.failure);
    }
  }

  /** When `runAllStages` has returned false, every runner has run all three stages and returned false. */
  lemma TotalSuccess(n: nat, steps: seq<Step>, i: nat)
    requires i < n && Possible(Initial(n), steps) && NoSpuriousWake(steps)
    requires After(Initial(n), steps).master == Done(false)
    ensures var s := After(Initial(n), steps);
      i < |s.runners| && s.runners[i].pc == Returned(false)
      && s.runners[i].begun == s.runners[i].posted == ALL_STAGES
  {
    InitialInv(n);
    RunKeepsInv(Initial(n), steps);
    var s := After(Initial(n), steps);
    assert RunnerOk(s.runners[i], Rank(s.runStage), s.failure);
  }

  // ----- spurious wakeups

  lemma {:induction false} PossibleSplit(s: State, steps: seq<Step>, k: nat)
    requires Possible(s, steps) && k <= |steps|
    ensures Possible(s, steps[..k]) && Possible(After(s, steps[..k]), steps[k..])
    ensures After(After(s, steps[..k]), steps[k..]) == After(s, steps)
    decreases steps
  {
    if k == 0 {
      assert steps[..k] == [] && steps[k..] == steps;
    } else {
      PossibleSplit(Apply(s, steps[0]), steps[1..], k - 1);
      assert steps[..k][1..] == steps[1..][..k - 1];
      assert steps[k..] == steps[1..][k - 1..];
    }
  }

  lemma {:induction false} BegunGrows(s: State, steps: seq<Step>, i: nat)
    requires Possible(s, steps) && i < |s.runners|
    ensures |After(s, steps).runners| == |s.runners|
    ensures s.runners[i].begun <= After(s, steps).runners[i].begun
    decreases steps
  {
    if steps == [] {
    } else {
      BegunGrows(Apply(s, steps[0]), steps[1..], i);
    }
  }

  /** A runner woken for nothing runs again the stage it has just run. */
  lemma SpuriousRepeats(s: State, i: nat)
    requires Inv(s) && Enabled(s, SpuriousWake(i))
    ensures !(Apply(s, SpuriousWake(i)).runners[i].begun <= ALL_STAGES)
  {
    var r := s.runners[i];
    var k := |r.posted|;
    assert RunnerOk(r, Rank(s.runStage), s.failure);
    var begun := Apply(s, SpuriousWake(i)).runners[i].begun;
    assert begun == Stages(k) + [s.runStage];
    assert begun[k] == s.runStage && Rank(s.runStage) == k;
  }

  lemma FirstSpurious(steps: seq<Step>) returns (k: nat)
    requires !NoSpuriousWake(steps)
    ensures k < |steps| && steps[k].SpuriousWake? && NoSpuriousWake(steps[..k])
  {
    k := 0;
    while !steps[k].SpuriousWake?
      invariant k < |steps| && NoSpuriousWake(steps[..k])
      decreases |steps| - k
    {
      assert NoSpuriousWake(steps[..k + 1]);
      assert steps[..|steps|] == steps;
      k := k + 1;
    }
  }

  predicate StagesInOrder(s: State) {
    forall i :: 0 <= i < |s.runners| ==> s.runners[i].begun <= ALL_STAGES
  }

  /** The wait is guarded by an `if`, not a loop. A run keeps every runner to INIT, NORMAL, FINAL, each
      at most once, if and only if no wait in it returned without a notification. */
  lemma OrderExact(n: nat, steps: seq<Step>)
    requires Possible(Initial(n), steps)
    ensures StagesInOrder(After(Initial(n), steps)) <==> NoSpuriousWake(steps)
  {
    InitialInv(n);
    if NoSpuriousWake(steps) {
      RunKeepsInv(Initial(n), steps);
      var s := After(Initial(n), steps);
      forall i | 0 <= i < |s.runners| ensures s.runners[i].begun <= ALL_STAGES {
        assert RunnerOk(s.runners[i], Rank(s.runStage), s.failure);
      }
    } else {
      var k := FirstSpurious(steps);
      PossibleSplit(Initial(n), steps, k);
      RunKeepsInv(Initial(n), steps[..k]);
      var s := After(Initial(n), steps[..k]);
      var i := steps[k].i;
      SpuriousRepeats(s, i);
      var t := Apply(s, SpuriousWake(i));
      BegunGrows(t, steps[k..][1..], i);
      assert t.runners[i].begun <= After(Initial(n), steps).runners[i].begun;
    }
  }

  lemma StepFirst(s: State, step: Step, t: State, steps: seq<Step>)
    requires Enabled(s, step) && Apply(s, step) == t && Possible(t, steps)
    ensures Possible(s, [step] + steps)
    ensures After(s, [step] + steps) == After(t, steps)
  {
    assert ([step] + steps)[1..] == steps;
  }

  /** From `first`, only the first runner moves, and the state of the whole is given by its state. */
  function Pair(stage: Stage, posts: nat, master: MasterPc, first: Runner): State {
    State(stage, false, posts, master, [first, FRESH_RUNNER])
  }

  const AFTER_SYNCHRONIZE := Runner(AtLock, SYNCHRONIZE, [SYNCHRONIZE], [SYNCHRONIZE])
  const AFTER_INIT := Runner(AtLock, INIT, [SYNCHRONIZE, INIT], [SYNCHRONIZE, INIT])

  /** Two posts of one runner pass for two runners. */
  lemma CollectTwice() returns (steps: seq<Step>)
    ensures var s := Pair(INIT, 2, Collecting(INIT, 0), AFTER_INIT);
      Possible(s, steps) && After(s, steps) == Pair(NORMAL, 0, Collecting(NORMAL, 0), AFTER_INIT)
  {
    var c0, c1 := Pair(INIT, 2, Collecting(INIT, 0), AFTER_INIT), Pair(INIT, 1, Collecting(INIT, 1), AFTER_INIT);
    var c2, p := Pair(INIT, 0, Collecting(INIT, 2), AFTER_INIT), Pair(INIT, 0, ToPublish(NORMAL), AFTER_INIT);
    var end := Pair(NORMAL, 0, Collecting(NORMAL, 0), AFTER_INIT);
    StepFirst(p, Publish, end, []);
    StepFirst(c2, FinishStage, p, [Publish] + []);
    StepFirst(c1, Collect, c2, [FinishStage] + ([Publish] + []));
    StepFirst(c0, Collect, c1, [Collect] + ([FinishStage] + ([Publish] + [])));
    steps := [Collect] + ([Collect] + ([FinishStage] + ([Publish] + [])));
  }

  lemma RunInit(rest: seq<Step>) returns (steps: seq<Step>)
    requires Possible(Pair(INIT, 2, Collecting(INIT, 0), AFTER_INIT), rest)
    ensures var s := Pair(INIT, 1, Collecting(INIT, 0), AFTER_SYNCHRONIZE);
      Possible(s, steps) && After(s, steps) == After(Pair(INIT, 2, Collecting(INIT, 0), AFTER_INIT), rest)
  {
    var m := Collecting(INIT, 0);
    var r1 := Pair(INIT, 1, m, Runner(Running(INIT), SYNCHRONIZE, [SYNCHRONIZE, INIT], [SYNCHRONIZE]));
    var r2 := Pair(INIT, 1, m, Runner(AtPost, INIT, [SYNCHRONIZE, INIT], [SYNCHRONIZE]));
    assert [SYNCHRONIZE] + [INIT] == [SYNCHRONIZE, INIT];
    StepFirst(r2, Post(0), Pair(INIT, 2, m, AFTER_INIT), rest);
    StepFirst(r1, Run(0, true), r2, [Post(0)] + rest);
    StepFirst(Pair(INIT, 1, m, AFTER_SYNCHRONIZE), Enter(0), r1, [Run(0, true)] + ([Post(0)] + rest));
    steps := [Enter(0)] + ([Run(0, true)] + ([Post(0)] + rest));
  }

  /** The spurious wakeup: the first runner runs and posts SYNCHRONIZE before anything is published. */
  lemma RunSynchronize(rest: seq<Step>) returns (steps: seq<Step>)
    requires Possible(Pair(SYNCHRONIZE, 1, ToPublish(INIT), AFTER_SYNCHRONIZE), rest)
    ensures Possible(Initial(2), steps)
    ensures After(Initial(2), steps) == After(Pair(SYNCHRONIZE, 1, ToPublish(INIT), AFTER_SYNCHRONIZE), rest)
  {
    var m := ToPublish(INIT);
    var r1 := Pair(SYNCHRONIZE, 0, m, Runner(Waiting(false), SYNCHRONIZE, [], []));
    var r2 := Pair(SYNCHRONIZE, 0, m, Runner(Running(SYNCHRONIZE), SYNCHRONIZE, [SYNCHRONIZE], []));
    var r3 := Pair(SYNCHRONIZE, 0, m, Runner(AtPost, SYNCHRONIZE, [SYNCHRONIZE], []));
    assert [] + [SYNCHRONIZE] == [SYNCHRONIZE];
    StepFirst(r3, Post(0), Pair(SYNCHRONIZE, 1, m, AFTER_SYNCHRONIZE), rest);
    StepFirst(r2, Run(0, true), r3, [Post(0)] + rest);
    StepFirst(r1, SpuriousWake(0), r2, [Run(0, true)] + ([Post(0)] + rest));
    assert Initial(2) == Pair(SYNCHRONIZE, 0, m, FRESH_RUNNER);
    StepFirst(Initial(2), Enter(0), r1, [SpuriousWake(0)] + ([Run(0, true)] + ([Post(0)] + rest)));
    steps := [Enter(0)] + ([SpuriousWake(0)] + ([Run(0, true)] + ([Post(0)] + rest)));
  }

  /** With two runners, one spurious wakeup lets the master take stage INIT for finished, publish NORMAL
      and so let the first runner begin it, although the second has not even begun INIT. */
  lemma SpuriousWakeupBreaksBarrier() returns (steps: seq<Step>)
    ensures Possible(Initial(2), steps)
    ensures var s := After(Initial(2), steps);
      && s.runStage == NORMAL && |s.runners| == 2 && s.runners[1] == FRESH_RUNNER
      && Enabled(s, Enter(0)) && Apply(s, Enter(0)).runners[0].pc == Running(NORMAL)
  {
    var collect := CollectTwice();
    var init := RunInit(collect);
    var p := Pair(SYNCHRONIZE, 1, ToPublish(INIT), AFTER_SYNCHRONIZE);
    StepFirst(p, Publish, Pair(INIT, 1, Collecting(INIT, 0), AFTER_SYNCHRONIZE), init);
    steps := RunSynchronize([Publish] + init);
  }
}
