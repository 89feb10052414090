/** What holds of every run of the fault phase. */
module BoardTheorems {
  import opened Prelude
  import opened Boards
  import opened BoardRuns
  import opened BoardInvariant

  /** `states` is a run: it starts as the phase does, and `steps[i]` takes each state to the next. */
  ghost predicate IsRun(cfg: Config, states: seq<System>, steps: seq<Step>) {
    && |states| == |steps| + 1
    && Init(cfg, states[0])
    && forall i :: 0 <= i < |steps| ==> Moves(cfg, states, steps, i)
  }

  /** Step `i` of a run. */
  ghost predicate Moves(cfg: Config, states: seq<System>, steps: seq<Step>, i: nat)
    requires i < |steps| == |states| - 1
  {
    Enabled(cfg, states[i], steps[i]) && states[i + 1] == After(cfg, states[i], steps[i])
  }

  lemma {:induction false} ReachableInv(cfg: Config, states: seq<System>, steps: seq<Step>, i: nat)
    requires IsRun(cfg, states, steps) && i < |states|
    ensures Inv(cfg, states[i])
  {
    if i == 0 {
      InitInv(cfg, states[0]);
    } else {
      ReachableInv(cfg, states, steps, i - 1);
      assert Moves(cfg, states, steps, i - 1);
      StepInv(cfg, states[i - 1], steps[i - 1]);
    }
  }

  lemma ReachableTasks(cfg: Config, states: seq<System>, steps: seq<Step>, i: nat)
    requires IsRun(cfg, states, steps) && i < |states|
    ensures Sized(states[i]) && TasksOk(cfg, states[i]) && RunningOk(states[i])
  {
    ReachableInv(cfg, states, steps, i);
  }

  // ── every run ends ─────────────────────────────────────────────────────────

  /** A queued task pays for its own run, the restored run it may come to owe, and each fallback
      it may leave. */
  ghost function TaskCost(cfg: Config): Task -> nat {
    (t: Task) => 4 * (1 + |Members(cfg, t.key)|)
  }

  ghost function QueueCost(cfg: Config): seq<Task> -> nat {
    (q: seq<Task>) => Over(q, TaskCost(cfg))
  }

  ghost function PhaseCost(cfg: Config): Phase -> nat {
    (p: Phase) =>
      match p
      case Idle => 1
      case Busy(t) => 2 + 4 * |Members(cfg, t.key)|
      case Gone => 0
  }

  ghost function OwedCost(): seq<Build> -> nat {
    (owed: seq<Build>) => 2 * |owed|
  }

  ghost function Measure(cfg: Config, s: System): nat
    requires Sized(s)
  {
    Over(s.board.queues, QueueCost(cfg)) + Over(s.board.restores.value, OwedCost())
    + Over(s.phase, PhaseCost(cfg)) + (if s.board.error then 0 else 1)
  }

  lemma TakeCosts(cfg: Config, s: System, w: nat)
    requires Inv(cfg, s) && CanTake(s, w)
    ensures Sized(After(cfg, s, TakeStep(w)))
    ensures Measure(cfg, After(cfg, s, TakeStep(w))) < Measure(cfg, s)
  {
    if TakesRestore(s, w) {
      RestoreCosts(cfg, s, w);
    } else {
      PopCosts(cfg, s, w);
    }
  }

  lemma RestoreCosts(cfg: Config, s: System, w: nat)
    requires Sized(s) && TasksOk(cfg, s) && CanTake(s, w) && TakesRestore(s, w)
    ensures Sized(After(cfg, s, TakeStep(w)))
    ensures Measure(cfg, After(cfg, s, TakeStep(w))) < Measure(cfg, s)
  {
    var b := TakeRestores(cfg, s, w);
    WithoutValueKeepsDistinct(Owed(s.board, w), b);
    OverUpdate(s.phase, w, Busy(Boards.Next(s.board, w).task), PhaseCost(cfg));
    OverUpdate(s.board.restores.value, w, WithoutValue(Owed(s.board, w), b), OwedCost());
  }

  lemma PopCosts(cfg: Config, s: System, w: nat)
    requires Sized(s) && TasksOk(cfg, s) && CanTake(s, w) && !TakesRestore(s, w)
    ensures Sized(After(cfg, s, TakeStep(w)))
    ensures Measure(cfg, After(cfg, s, TakeStep(w))) < Measure(cfg, s)
  {
    var v, at, task, b := TakePops(cfg, s, w);
    OverRemove(s.board.queues[v], at, TaskCost(cfg));
    OverUpdate(s.board.queues, v, Without(s.board.queues[v], at), QueueCost(cfg));
    OverUpdate(s.phase, w, Busy(task), PhaseCost(cfg));
    OverUpdate(s.board.restores.value, w, SetDefault(Owed(s.board, w), b), OwedCost());
  }

  lemma FollowCosts(cfg: Config, touched: seq<Command>, task: Task, entries: seq<Entry>, follow: seq<Task>)
    requires BusyOk(cfg, task) && Answers(cfg, touched, task, entries, follow)
    ensures Over(follow, TaskCost(cfg)) <= 4 * |Members(cfg, task.key)|
  {
    if IsBatch(task.key) {
      var proven, alone :| BatchAnswers(cfg, task, proven, alone, entries, follow);
      assert |multiset(proven + alone)| == |multiset(Range(|Members(cfg, task.key)|))|;
      OverBounded(follow, TaskCost(cfg), 4);
    }
  }

  /** Each step spends some of what the run started with. */
  lemma StepCosts(cfg: Config, s: System, step: Step)
    requires Inv(cfg, s) && Enabled(cfg, s, step)
    ensures Sized(After(cfg, s, step)) && Measure(cfg, After(cfg, s, step)) < Measure(cfg, s)
  {
    match step
    case TakeStep(w) => TakeCosts(cfg, s, w);
    case FinishStep(w, entries, follow) =>
      OverUpdate(s.phase, w, Idle, PhaseCost(cfg));
      OverConcat(follow, s.board.queues[w], TaskCost(cfg));
      OverUpdate(s.board.queues, w, follow + s.board.queues[w], QueueCost(cfg));
      FollowCosts(cfg, s.touched[w], s.phase[w].task, entries, follow);
    case StopStep =>
    case _ => OverUpdate(s.phase, step.w, Gone, PhaseCost(cfg));
  }

  /** No run is longer than the measure of the state it starts from. */
  lemma {:induction false} EveryRunEnds(cfg: Config, states: seq<System>, steps: seq<Step>)
    requires IsRun(cfg, states, steps)
    ensures Sized(states[0]) && |steps| <= Measure(cfg, states[0])
  {
    var i := 0;
    ReachableInv(cfg, states, steps, 0);
    while i < |steps|
      invariant i <= |steps| && Sized(states[i])
      invariant Measure(cfg, states[i]) + i <= Measure(cfg, states[0])
    {
      ReachableInv(cfg, states, steps, i);
      assert Moves(cfg, states, steps, i);
      StepCosts(cfg, states[i], steps[i]);
      i := i + 1;
    }
  }

  // ── no deadlock ────────────────────────────────────────────────────────────

  /** No worker can move: each has left, or is told to wait. */
  ghost predicate Stuck(s: System) {
    Sized(s) && forall w :: 0 <= w < |s.phase| ==> !CanTake(s, w) && !CanLeave(s, w) && !IsBusy(s, w)
  }

  /** A run that can go no further has every worker gone: none waits for what will not come. */
  lemma NoDeadlock(cfg: Config, s: System)
    requires Inv(cfg, s) && Stuck(s)
    ensures forall w :: 0 <= w < |s.phase| ==> s.phase[w].Gone?
  {
    forall w | 0 <= w < |s.phase| ensures s.phase[w].Gone? {
      if !s.phase[w].Gone? {
        assert !CanTake(s, w) && !CanLeave(s, w) && !IsBusy(s, w);
        assert s.phase[w].Idle? && Boards.Next(s.board, w).Wait?;
        NothingRuns(s);
        assert forall b :: b in s.board.running ==> s.board.running[b] == Count(s.board.running, b);
        assert Owed(s.board, w) != [];
        var b := Owed(s.board, w)[0];
        assert b in Owed(s.board, w) && !Settled(s.board, b);
        var v :| 0 <= v < |s.board.queues| && QueuedIn(s.board.queues[v], b);
        assert s.board.queues[v] != [];
        assert !CanTake(s, v) && !CanLeave(s, v) && !IsBusy(s, v);
        assert s.phase[v].Idle?;
        PopChoosesWell(s.board, v);
        assert false;
      }
    }
  }

  lemma NothingRuns(s: System)
    requires Stuck(s) && RunningOk(s) && !s.board.error
    ensures forall b :: Count(s.board.running, b) == 0
  {
    forall b ensures Count(s.board.running, b) == 0 {
      forall w | 0 <= w < |s.phase| ensures OnBuild(b)(s.phase[w]) == 0 {
        assert !IsBusy(s, w);
      }
      OverZero(s.phase, OnBuild(b));
    }
  }

  /** A busy worker can always finish: `do` has an answer for every task it is given. */
  lemma BusyCanFinish(cfg: Config, s: System, w: nat) returns (step: Step)
    requires Inv(cfg, s) && IsBusy(s, w)
    ensures step.FinishStep? && step.w == w && Enabled(cfg, s, step)
  {
    var task := s.phase[w].task;
    assert BusyOk(cfg, task);
    if task.key.Fault? {
      step := FinishStep(w, [Entry(task.key, Verdict(false))], []);
    } else if task.key.Restore? {
      var cs := Building(cfg, s.touched[w], task.key.build);
      step := FinishStep(w, seq(|cs|, i requires 0 <= i < |cs| => Entry(Run(cs[i]), Ran(0, w))), []);
    } else {
      var members := Members(cfg, task.key);
      var alone := Range(|members|);
      var follow := seq(|members|, i requires 0 <= i < |members| => Task(Fault(members[i]), false, task.build));
      assert [] + alone == alone;
      assert BatchAnswers(cfg, task, [], alone, [Entry(task.key, Report(false, [], alone))], follow);
      step := FinishStep(w, [Entry(task.key, Report(false, [], alone))], follow);
    }
  }

  // ── how a run without an error ends ────────────────────────────────────────

  ghost function RanCount(s: System, c: Command): nat
    requires Sized(s)
  {
    Over(Range(|s.phase|), RanBy(s, c))
  }

  ghost function RanBy(s: System, c: Command): nat -> nat
    requires Sized(s)
  {
    (w: nat) => if w < |s.phase| && c in s.touched[w] then 1 else 0
  }

  /** Nothing is lost: once every worker has left, every queue is empty, every owed restored run
      is paid and nothing is counted as running; each fault and batch has exactly the results it
      was queued for; and each command has one restored result for each worker that ran it, so
      the main thread's `get(key, counts[key])` is met exactly. */
  lemma CompleteRun(cfg: Config, s: System)
    requires Inv(cfg, s) && !s.board.error
    requires forall w :: 0 <= w < |s.phase| ==> s.phase[w].Gone?
    ensures s.board.left == 0
    ensures forall w :: 0 <= w < |s.phase| ==> s.board.queues[w] == [] && Owed(s.board, w) == []
    ensures forall b :: Count(s.board.running, b) == 0
    ensures forall key :: Counted(key) ==>
                            |Results(s.board.done, key)| == Over(cfg.queues, QueuePending(cfg, key))
    ensures forall c :: |Results(s.board.done, Run(c))| == RanCount(s, c)
  {
    OverZero(s.phase, Staying());
    forall b ensures Count(s.board.running, b) == 0 {
      OverZero(s.phase, OnBuild(b));
    }
    forall key | Counted(key)
      ensures |Results(s.board.done, key)| == Over(cfg.queues, QueuePending(cfg, key))
    {
      OverZero(s.board.queues, QueuePending(cfg, key));
      OverZero(s.phase, PhasePending(cfg, key));
    }
    forall c ensures |Results(s.board.done, Run(c))| == RanCount(s, c) {
      assert RestoredAll(cfg, s, c);
      OverMap(Range(|s.phase|), Range(|s.phase|), PaidBy(cfg, s, c), RanBy(s, c));
    }
  }

  /** Before the end too, no command has more restored results than workers that ran it. */
  lemma NeverOverFilled(cfg: Config, s: System, c: Command)
    requires Inv(cfg, s) && !s.board.error
    ensures |Results(s.board.done, Run(c))| <= RanCount(s, c)
  {
    assert RestoredAll(cfg, s, c);
    OverAtMost(Range(|s.phase|), Range(|s.phase|), PaidBy(cfg, s, c), RanBy(s, c));
  }

  /** Every fault's and every batch's result is in: all the main thread waits for before it counts. */
  ghost predicate AllIn(cfg: Config, s: System) {
    forall key :: Counted(key) ==> |Results(s.board.done, key)| >= Over(cfg.queues, QueuePending(cfg, key))
  }

  /** Once every counted result is in, nothing that seeds a fault is queued or running, so the
      commands each worker has run are final: the counts the main thread takes then are the
      counts at the end. */
  lemma TouchedIsFinal(cfg: Config, s: System, step: Step)
    requires Inv(cfg, s) && !s.board.error && Enabled(cfg, s, step) && AllIn(cfg, s)
    ensures After(cfg, s, step).touched == s.touched && AllIn(cfg, After(cfg, s, step))
  {
    var s' := After(cfg, s, step);
    if step.TakeStep? && !TakesRestore(s, step.w) {
      var v, at, task, b := TakePops(cfg, s, step.w);
      var key := task.key;
      OverSplit(s.board.queues, v, QueuePending(cfg, key));
      OverSplit(s.board.queues[v], at, Pending(cfg, key));
      assert false;
    }
    if step.TakeStep? {
      var _ := TakeRestores(cfg, s, step.w);
      assert s'.touched == s.touched;
    }
    if step.FinishStep? {
      forall key | Counted(key)
        ensures |Results(s'.board.done, key)| >= Over(cfg.queues, QueuePending(cfg, key))
      {
        PutCounts(s.board.done, step.entries, key);
      }
    }
  }

  lemma {:induction false} NoErrorBefore(cfg: Config, states: seq<System>, steps: seq<Step>, i: nat, j: nat)
    requires IsRun(cfg, states, steps) && i <= j < |states| && !states[j].board.error
    ensures !states[i].board.error
  {
    if i < j {
      assert Moves(cfg, states, steps, j - 1);
      NoErrorBefore(cfg, states, steps, i, j - 1);
    }
  }

  /** Every counted result is in, and these are the commands each worker has run. */
  ghost predicate Counts(cfg: Config, s: System, touched: seq<seq<Command>>) {
    AllIn(cfg, s) && s.touched == touched
  }

  lemma {:induction false} TouchedFromThere(cfg: Config, states: seq<System>, steps: seq<Step>, i: nat, j: nat,
                                            touched: seq<seq<Command>>)
    requires IsRun(cfg, states, steps) && i <= j < |states| && !states[j].board.error
    requires Counts(cfg, states[i], touched)
    ensures Counts(cfg, states[j], touched)
  {
    if i < j {
      NoErrorBefore(cfg, states, steps, j - 1, j);
      TouchedFromThere(cfg, states, steps, i, j - 1, touched);
      NextKeepsTouched(cfg, states, steps, j - 1, touched);
    }
  }

  lemma NextKeepsTouched(cfg: Config, states: seq<System>, steps: seq<Step>, i: nat, touched: seq<seq<Command>>)
    requires IsRun(cfg, states, steps) && i < |steps| && !states[i].board.error && Counts(cfg, states[i], touched)
    ensures Counts(cfg, states[i + 1], touched)
  {
    assert Moves(cfg, states, steps, i);
    ReachableInv(cfg, states, steps, i);
    TouchedIsFinal(cfg, states[i], steps[i]);
  }

  /** So wherever in a run the main thread counts, once those results are in, each command comes to
      have just as many restored results as it counted workers, if the run ends without an error:
      its `get` of them waits for no more and no fewer. */
  lemma CountsAreMet(cfg: Config, states: seq<System>, steps: seq<Step>, i: nat, c: Command)
    requires IsRun(cfg, states, steps) && i < |states| && AllIn(cfg, states[i])
    requires var last := states[|steps|];
             !last.board.error && Sized(last) && forall w :: 0 <= w < |last.phase| ==> last.phase[w].Gone?
    ensures Sized(states[i])
    ensures |Results(states[|steps|].board.done, Run(c))| == RanCount(states[i], c)
  {
    var last := states[|steps|];
    ReachableInv(cfg, states, steps, i);
    ReachableInv(cfg, states, steps, |steps|);
    TouchedFromThere(cfg, states, steps, i, |steps|, states[i].touched);
    CompleteRun(cfg, last);
    OverMap(Range(|last.phase|), Range(|last.phase|), RanBy(last, c), RanBy(states[i], c));
  }

  // ── each build restored once, after its last fault ─────────────────────────

  /** Step `i` of the run is worker `w` starting its restored run of `build`. */
  ghost predicate RestoresAt(states: seq<System>, steps: seq<Step>, i: nat, w: nat, build: Build)
    requires |states| == |steps| + 1
  {
    i < |steps| && steps[i] == TakeStep(w) && CanTake(states[i], w) &&
    Boards.Next(states[i].board, w).task == Task(Restore(build), true, None)
  }

  /** Step `i` of the run is worker `w` starting a task that seeds a fault of `build`. */
  ghost predicate FaultsAt(states: seq<System>, steps: seq<Step>, i: nat, w: nat, build: Build)
    requires |states| == |steps| + 1
  {
    i < |steps| && steps[i] == TakeStep(w) && CanTake(states[i], w) &&
    Boards.Next(states[i].board, w).task.build == Some(build)
  }

  lemma {:induction false} SettledForGood(cfg: Config, states: seq<System>, steps: seq<Step>, i: nat, j: nat,
                                          build: Build)
    requires IsRun(cfg, states, steps) && i <= j < |states|
    requires Settled(states[i].board, build)
    ensures Settled(states[j].board, build)
  {
    if i < j {
      SettledForGood(cfg, states, steps, i, j - 1, build);
      ReachableInv(cfg, states, steps, j - 1);
      assert Moves(cfg, states, steps, j - 1);
      SettledStays(cfg, states[j - 1], steps[j - 1], build);
    }
  }

  lemma RestoreIsSettled(cfg: Config, states: seq<System>, steps: seq<Step>, i: nat, w: nat, build: Build)
    requires IsRun(cfg, states, steps) && RestoresAt(states, steps, i, w, build)
    ensures Settled(states[i].board, build)
    ensures Sized(states[i + 1]) && w < |states[i + 1].phase| && build !in Owed(states[i + 1].board, w)
  {
    ReachableInv(cfg, states, steps, i);
    ReachableInv(cfg, states, steps, i + 1);
    assert Moves(cfg, states, steps, i);
    if TakesRestore(states[i], w) {
      var b := TakeRestores(cfg, states[i], w);
      assert b == build;
    } else {
      var _, _, task, _ := TakePops(cfg, states[i], w);
      assert false;
    }
  }

  /** When any worker starts restoring a build, no fault in it is running anywhere, and none
      starts on any worker from then on. */
  lemma RestoreAfterLastFault(cfg: Config, states: seq<System>, steps: seq<Step>,
                              i: nat, w: nat, build: Build, j: nat, v: nat)
    requires IsRun(cfg, states, steps) && RestoresAt(states, steps, i, w, build) && i <= j < |states|
    ensures !FaultsAt(states, steps, j, v, build)
    ensures v < |states[j].phase| && states[j].phase[v].Busy? ==> states[j].phase[v].task.build != Some(build)
  {
    RestoreIsSettled(cfg, states, steps, i, w, build);
    SettledForGood(cfg, states, steps, i, j, build);
    ReachableInv(cfg, states, steps, j);
    if j < |steps| {
      assert Moves(cfg, states, steps, j);
      SettledStays(cfg, states[j], steps[j], build);
    }
    if v < |states[j].phase| && states[j].phase[v].Busy? && states[j].phase[v].task.build == Some(build) {
      BusyIsRunning(states[j], v, build);
    }
  }

  /** `build` is settled, and `w` doesn't owe it. */
  ghost predicate Clear(s: System, w: nat, build: Build) {
    Sized(s) && w < |s.phase| && Settled(s.board, build) && build !in Owed(s.board, w)
  }

  lemma StaysClear(cfg: Config, s: System, step: Step, w: nat, build: Build)
    requires Sized(s) && TasksOk(cfg, s) && RunningOk(s) && Enabled(cfg, s, step) && Clear(s, w, build)
    ensures Clear(After(cfg, s, step), w, build)
  {
    SettledStays(cfg, s, step, build);
    if step.TakeStep? {
      if TakesRestore(s, step.w) {
        RestoreOwesNothing(cfg, s, step.w, w, build);
      } else {
        PopOwesNothing(cfg, s, step.w, w, build);
      }
    }
  }

  lemma RestoreOwesNothing(cfg: Config, s: System, v: nat, w: nat, build: Build)
    requires CanTake(s, v) && TakesRestore(s, v) && Clear(s, w, build)
    ensures AfterNext(s.board, v).restores.Some? && |AfterNext(s.board, v).restores.value| == |s.phase|
    ensures build !in Owed(AfterNext(s.board, v), w)
  {
    var _ := TakeRestores(cfg, s, v);
  }

  /** What is popped is queued, and so of another build. */
  lemma PopOwesNothing(cfg: Config, s: System, v: nat, w: nat, build: Build)
    requires CanTake(s, v) && !TakesRestore(s, v) && TasksOk(cfg, s) && Clear(s, w, build)
    ensures AfterNext(s.board, v).restores.Some? && |AfterNext(s.board, v).restores.value| == |s.phase|
    ensures build !in Owed(AfterNext(s.board, v), w)
  {
    var u, at, _, b := TakePops(cfg, s, v);
    assert QueuedIn(s.board.queues[u], b) && Queued(s.board.queues, b);
  }

  lemma {:induction false} NotOwedAgain(cfg: Config, states: seq<System>, steps: seq<Step>, i: nat, j: nat, w: nat,
                                        build: Build)
    requires IsRun(cfg, states, steps) && i <= j < |states| && Clear(states[i], w, build)
    ensures Clear(states[j], w, build)
  {
    if i < j {
      NotOwedAgain(cfg, states, steps, i, j - 1, w, build);
      NextIsClear(cfg, states, steps, j - 1, w, build);
    }
  }

  lemma NextIsClear(cfg: Config, states: seq<System>, steps: seq<Step>, i: nat, w: nat, build: Build)
    requires IsRun(cfg, states, steps) && i < |steps| && Clear(states[i], w, build)
    ensures Clear(states[i + 1], w, build)
  {
    var (s, next) := (states[i], states[i + 1]);
    ReachableTasks(cfg, states, steps, i);
    assert Moves(cfg, states, steps, i);
    StaysClear(cfg, s, steps[i], w, build);
  }

  /** No worker restores a build twice. */
  lemma RestoredAtMostOnce(cfg: Config, states: seq<System>, steps: seq<Step>, i: nat, j: nat, w: nat, build: Build)
    requires IsRun(cfg, states, steps) && i < j
    requires RestoresAt(states, steps, i, w, build)
    ensures !RestoresAt(states, steps, j, w, build)
  {
    if RestoresAt(states, steps, j, w, build) {
      RestoreIsSettled(cfg, states, steps, i, w, build);
      SettledForGood(cfg, states, steps, i, i + 1, build);
      ReachableInv(cfg, states, steps, i);
      ReachableInv(cfg, states, steps, i + 1);
      assert Moves(cfg, states, steps, i);
      NotOwedAgain(cfg, states, steps, i + 1, j, w, build);
      ReachableInv(cfg, states, steps, j);
      if TakesRestore(states[j], w) {
        var b := TakeRestores(cfg, states[j], w);
      } else {
        var _, _, _, _ := TakePops(cfg, states[j], w);
      }
      assert false;
    }
  }

  /** While a worker owes a build it hasn't restored it; so a run that ends owing nothing has a
      step that restores it. */
  lemma {:induction false} OwedIsRestored(cfg: Config, states: seq<System>, steps: seq<Step>, i: nat, w: nat,
                                          build: Build)
    returns (j: nat)
    requires IsRun(cfg, states, steps) && i < |states| && Sized(states[i]) && w < |states[i].phase|
    requires build in Owed(states[i].board, w)
    requires var last := states[|steps|]; Sized(last) && w < |last.phase| && build !in Owed(last.board, w)
    ensures i <= j && RestoresAt(states, steps, j, w, build)
    decreases |states| - i
  {
    ReachableInv(cfg, states, steps, i);
    assert Moves(cfg, states, steps, i);
    StepInv(cfg, states[i], steps[i]);
    var (s, step) := (states[i], steps[i]);
    if RestoresAt(states, steps, i, w, build) {
      j := i;
    } else {
      if step.TakeStep? {
        if TakesRestore(s, step.w) {
          var _ := TakeRestores(cfg, s, step.w);
        } else {
          var _, _, _, _ := TakePops(cfg, s, step.w);
        }
      }
      assert build in Owed(states[i + 1].board, w);
      j := OwedIsRestored(cfg, states, steps, i + 1, w, build);
    }
  }

  /** The board's promise: in a run that ends without an error, a worker that ran a build, clean
      before the phase or with a fault in it, restores it exactly once; and from that step on no
      fault in the build runs or starts on any worker. */
  lemma RestoredExactlyOnceAfterLastFault(cfg: Config, states: seq<System>, steps: seq<Step>, w: nat, build: Build)
    returns (j: nat)
    requires IsRun(cfg, states, steps) && w < |states[0].phase|
    requires var last := states[|steps|];
             !last.board.error && Sized(last) && forall u :: 0 <= u < |last.phase| ==> last.phase[u].Gone?
    requires Sized(states[0])
    requires build in Owed(states[0].board, w) || exists i: nat :: FaultsAt(states, steps, i, w, build)
    ensures RestoresAt(states, steps, j, w, build)
    ensures forall k: nat :: RestoresAt(states, steps, k, w, build) ==> k == j
    ensures forall k: nat, v: nat :: j <= k < |states| ==>
                             !FaultsAt(states, steps, k, v, build) &&
                             (v < |states[k].phase| && states[k].phase[v].Busy? ==>
                                states[k].phase[v].task.build != Some(build))
  {
    var last := states[|steps|];
    SameWorkers(cfg, states, steps, |steps|);
    ReachableInv(cfg, states, steps, |steps|);
    CompleteRun(cfg, last);
    if build in Owed(states[0].board, w) {
      j := OwedIsRestored(cfg, states, steps, 0, w, build);
    } else {
      var i: nat :| FaultsAt(states, steps, i, w, build);
      ReachableInv(cfg, states, steps, i);
      assert Moves(cfg, states, steps, i);
      StepInv(cfg, states[i], steps[i]);
      assert !TakesRestore(states[i], w);
      var _, _, _, b := TakePops(cfg, states[i], w);
      assert build in Owed(states[i + 1].board, w);
      j := OwedIsRestored(cfg, states, steps, i + 1, w, build);
    }
    forall k: nat | RestoresAt(states, steps, k, w, build) ensures k == j {
      if k < j {
        RestoredAtMostOnce(cfg, states, steps, k, j, w, build);
      } else if j < k {
        RestoredAtMostOnce(cfg, states, steps, j, k, w, build);
      }
    }
    forall k: nat, v: nat | j <= k < |states|
      ensures !FaultsAt(states, steps, k, v, build) &&
              (v < |states[k].phase| && states[k].phase[v].Busy? ==> states[k].phase[v].task.build != Some(build))
    {
      RestoreAfterLastFault(cfg, states, steps, j, w, build, k, v);
    }
  }

  lemma {:induction false} SameWorkers(cfg: Config, states: seq<System>, steps: seq<Step>, i: nat)
    requires IsRun(cfg, states, steps) && i < |states|
    ensures |states[i].phase| == |states[0].phase|
  {
    if i > 0 {
      SameWorkers(cfg, states, steps, i - 1);
      assert Moves(cfg, states, steps, i - 1);
    }
  }
}
