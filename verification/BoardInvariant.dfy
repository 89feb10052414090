/** Every step of the fault phase keeps the invariant.

    The invariant has a part for each thing that is counted: the tasks queued and running, the
    running counts, the builds each worker owes, the workers that have left, the results each
    fault and batch will have put, and the restored results. Each part is kept by each kind of
    step, and `StepInv` puts them together. */
module BoardInvariant {
  import opened Prelude
  import opened Boards
  import opened BoardRuns

  // ── what a take does ───────────────────────────────────────────────────────

  ghost predicate TakesRestore(s: System, w: nat)
    requires CanTake(s, w)
  {
    FirstSettled(s.board, Owed(s.board, w)).Some?
  }

  /** A take that isn't a restored run pops a queued task and counts it as running. */
  lemma TakePops(cfg: Config, s: System, w: nat) returns (v: nat, at: nat, task: Task, build: Build)
    requires CanTake(s, w) && !TakesRestore(s, w) && TasksOk(cfg, s)
    ensures v < |s.board.queues| && at < |s.board.queues[v]| && task == s.board.queues[v][at]
    ensures Boards.Next(s.board, w) == Take(task)
    ensures Seeds(cfg, task) && task.build == Some(build)
    ensures v != w ==> s.board.queues[w] == []
    ensures AfterNext(s.board, w) ==
            s.board.(queues := s.board.queues[v := Without(s.board.queues[v], at)],
                     running := s.board.running[build := Count(s.board.running, build) + 1],
                     restores := Some(s.board.restores.value[w := SetDefault(Owed(s.board, w), build)]))
  {
    var slot := PopSlot(s.board, w).value;
    v, at := slot.worker, slot.at;
    task := s.board.queues[v][at];
    build := task.build.value;
  }

  lemma TakeRestores(cfg: Config, s: System, w: nat) returns (build: Build)
    requires CanTake(s, w) && TakesRestore(s, w)
    ensures build in Owed(s.board, w) && Settled(s.board, build)
    ensures Boards.Next(s.board, w) == Take(Task(Restore(build), true, None))
    ensures AfterNext(s.board, w) ==
            s.board.(restores := Some(s.board.restores.value[w := WithoutValue(Owed(s.board, w), build)]))
  {
    build := FirstSettled(s.board, Owed(s.board, w)).value;
  }

  lemma {:induction false} WithoutValueKeepsDistinct<T(!new)>(xs: seq<T>, x: T)
    requires NoDuplicates(xs)
    ensures NoDuplicates(WithoutValue(xs, x))
    ensures |WithoutValue(xs, x)| == if x in xs then |xs| - 1 else |xs|
  {
    if xs != [] {
      WithoutValueKeepsDistinct(xs[1..], x);
      assert xs[0] !in xs[1..];
      assert xs[0] !in WithoutValue(xs[1..], x);
    }
  }

  lemma SetDefaultKeepsDistinct<T(!new)>(xs: seq<T>, x: T)
    requires NoDuplicates(xs)
    ensures NoDuplicates(SetDefault(xs, x))
    ensures forall y :: y in SetDefault(xs, x) <==> y in xs || y == x
  {
  }

  lemma TouchedKeepsDistinct(cfg: Config, touched: seq<Command>, task: Task)
    requires NoDuplicates(touched)
    ensures NoDuplicates(Touched(cfg, touched, task))
    ensures forall c :: c in touched ==> c in Touched(cfg, touched, task)
    ensures Seeds(cfg, task) ==>
              forall c :: c in Touched(cfg, touched, task) && c !in touched ==> task.build == Some(cfg.buildOf(c))
    ensures Seeds(cfg, task) ==>
              exists c :: c in Touched(cfg, touched, task) && task.build == Some(cfg.buildOf(c))
  {
    match task.key
    case Fault(i) =>
      if i < |cfg.commandOf| {
        SetDefaultKeepsDistinct(touched, cfg.commandOf[i]);
        assert cfg.commandOf[i] in Touched(cfg, touched, task);
      }
    case LintBatch(c) => SetDefaultKeepsDistinct(touched, c); assert c in Touched(cfg, touched, task);
    case ScriptBatch(c, _) => SetDefaultKeepsDistinct(touched, c); assert c in Touched(cfg, touched, task);
    case _ =>
  }

  /** What a finished task leaves seeds faults of the same build. */
  lemma FollowSeeds(cfg: Config, touched: seq<Command>, task: Task, entries: seq<Entry>, follow: seq<Task>)
    requires Seeds(cfg, task) || task.key.Restore?
    requires Answers(cfg, touched, task, entries, follow)
    ensures forall i :: 0 <= i < |follow| ==> Seeds(cfg, follow[i]) && follow[i].build == task.build
    ensures task.key.Restore? ==> follow == []
  {
    if IsBatch(task.key) {
      var proven, alone :| BatchAnswers(cfg, task, proven, alone, entries, follow);
    }
  }

  // ── settled stays settled ──────────────────────────────────────────────────

  lemma BusyIsRunning(s: System, w: nat, build: Build)
    requires w < |s.phase| && s.phase[w].Busy? && s.phase[w].task.build == Some(build) && RunningOk(s)
    ensures Count(s.board.running, build) > 0
  {
    OverSplit(s.phase, w, OnBuild(build));
  }

  lemma TakeKeepsSettled(cfg: Config, s: System, w: nat, build: Build)
    requires CanTake(s, w) && TasksOk(cfg, s) && Settled(s.board, build)
    ensures Settled(AfterNext(s.board, w), build)
    ensures Boards.Next(s.board, w).task.build != Some(build)
  {
    if TakesRestore(s, w) {
      var _ := TakeRestores(cfg, s, w);
    } else {
      var v, at, task, b := TakePops(cfg, s, w);
      assert !QueuedIn(s.board.queues[v], build);
      assert s.board.queues[v][at].build == Some(b);
      QueueEditKeepsOut(s.board.queues, v, Without(s.board.queues[v], at), build);
    }
  }

  lemma QueueEditKeepsOut(queues: seq<seq<Task>>, v: nat, q: seq<Task>, build: Build)
    requires v < |queues| && !Queued(queues, build)
    requires forall j :: 0 <= j < |q| ==> q[j] in queues[v] || q[j].build != Some(build)
    ensures !Queued(queues[v := q], build)
  {
    assert !QueuedIn(queues[v], build);
    assert !QueuedIn(q, build);
    var edited := queues[v := q];
    forall i | 0 <= i < |edited| ensures !QueuedIn(edited[i], build) {
      assert !QueuedIn(queues[i], build);
    }
  }

  lemma FinishKeepsSettled(cfg: Config, s: System, w: nat, entries: seq<Entry>, follow: seq<Task>, build: Build)
    requires Sized(s) && TasksOk(cfg, s) && RunningOk(s) && Settled(s.board, build)
    requires Enabled(cfg, s, FinishStep(w, entries, follow))
    ensures Settled(AfterFinish(s.board, w, s.phase[w].task, entries, follow), build)
  {
    var task := s.phase[w].task;
    FollowSeeds(cfg, s.touched[w], task, entries, follow);
    if task.build.Some? {
      BusyIsRunning(s, w, task.build.value);
    }
    QueueEditKeepsOut(s.board.queues, w, follow + s.board.queues[w], build);
  }

  /** Once no task of a build is queued or running, no step queues or starts one. */
  lemma SettledStays(cfg: Config, s: System, step: Step, build: Build)
    requires Sized(s) && TasksOk(cfg, s) && RunningOk(s) && Enabled(cfg, s, step) && Settled(s.board, build)
    ensures Settled(After(cfg, s, step).board, build)
    ensures step.TakeStep? ==> Boards.Next(s.board, step.w).task.build != Some(build)
  {
    match step
    case TakeStep(w) => TakeKeepsSettled(cfg, s, w, build);
    case FinishStep(w, entries, follow) => FinishKeepsSettled(cfg, s, w, entries, follow, build);
    case _ =>
  }

  // ── each part of the invariant ─────────────────────────────────────────────

  lemma TakeKeepsTasks(cfg: Config, s: System, w: nat)
    requires Sized(s) && TasksOk(cfg, s) && CanTake(s, w)
    ensures Sized(After(cfg, s, TakeStep(w))) && TasksOk(cfg, After(cfg, s, TakeStep(w)))
  {
    TouchedKeepsDistinct(cfg, s.touched[w], Boards.Next(s.board, w).task);
    if TakesRestore(s, w) {
      var b := TakeRestores(cfg, s, w);
      WithoutValueKeepsDistinct(Owed(s.board, w), b);
    } else {
      var v, at, task, b := TakePops(cfg, s, w);
      SetDefaultKeepsDistinct(Owed(s.board, w), b);
      assert AllSeed(cfg, Without(s.board.queues[v], at));
    }
  }

  lemma KeepsTasks(cfg: Config, s: System, step: Step)
    requires Sized(s) && TasksOk(cfg, s) && Enabled(cfg, s, step)
    ensures Sized(After(cfg, s, step)) && TasksOk(cfg, After(cfg, s, step))
  {
    match step
    case TakeStep(w) => TakeKeepsTasks(cfg, s, w);
    case FinishStep(w, entries, follow) =>
      FollowSeeds(cfg, s.touched[w], s.phase[w].task, entries, follow);
      assert AllSeed(cfg, follow + s.board.queues[w]);
    case _ =>
  }

  lemma KeepsRunning(cfg: Config, s: System, step: Step)
    requires Sized(s) && TasksOk(cfg, s) && RunningOk(s) && Enabled(cfg, s, step)
    ensures RunningOk(After(cfg, s, step))
  {
    var s' := After(cfg, s, step);
    forall b
      ensures Count(s'.board.running, b) >= Over(s'.phase, OnBuild(b))
      ensures !s'.board.error ==> Count(s'.board.running, b) == Over(s'.phase, OnBuild(b))
    {
      match step
      case TakeStep(w) =>
        OverUpdate(s.phase, w, s'.phase[w], OnBuild(b));
        if TakesRestore(s, w) {
          var _ := TakeRestores(cfg, s, w);
        } else {
          var _, _, _, _ := TakePops(cfg, s, w);
        }
      case StopStep =>
      case _ =>
        OverUpdate(s.phase, step.w, s'.phase[step.w], OnBuild(b));
    }
  }

  lemma RestoreKeepsOwed(cfg: Config, s: System, w: nat)
    requires Sized(s) && TasksOk(cfg, s) && OwedOk(cfg, s) && CanTake(s, w) && TakesRestore(s, w)
    requires forall b :: Settled(s.board, b) ==> Settled(AfterNext(s.board, w), b)
    ensures Sized(After(cfg, s, TakeStep(w))) && OwedOk(cfg, After(cfg, s, TakeStep(w)))
  {
    var s' := After(cfg, s, TakeStep(w));
    var b := TakeRestores(cfg, s, w);
    assert forall u :: 0 <= u < |s.phase| && u != w ==> Owed(s'.board, u) == Owed(s.board, u);
    assert s'.touched == s.touched;
  }

  lemma PopKeepsOwed(cfg: Config, s: System, w: nat)
    requires Sized(s) && TasksOk(cfg, s) && OwedOk(cfg, s) && CanTake(s, w) && !TakesRestore(s, w)
    requires forall b :: Settled(s.board, b) ==> Settled(AfterNext(s.board, w), b)
    ensures Sized(After(cfg, s, TakeStep(w))) && OwedOk(cfg, After(cfg, s, TakeStep(w)))
  {
    var s' := After(cfg, s, TakeStep(w));
    var v, at, task, b := TakePops(cfg, s, w);
    TouchedKeepsDistinct(cfg, s.touched[w], task);
    SetDefaultKeepsDistinct(Owed(s.board, w), b);
    assert Owed(s'.board, w) == SetDefault(Owed(s.board, w), b);
    forall u | 0 <= u < |s.phase| && u != w
      ensures Owed(s'.board, u) == Owed(s.board, u) && s'.touched[u] == s.touched[u] && s'.phase[u] == s.phase[u]
    {
    }
  }

  lemma TakeKeepsOwed(cfg: Config, s: System, w: nat)
    requires Sized(s) && TasksOk(cfg, s) && OwedOk(cfg, s) && CanTake(s, w)
    ensures Sized(After(cfg, s, TakeStep(w))) && OwedOk(cfg, After(cfg, s, TakeStep(w)))
  {
    forall b | Settled(s.board, b) ensures Settled(AfterNext(s.board, w), b) {
      TakeKeepsSettled(cfg, s, w, b);
    }
    if TakesRestore(s, w) {
      RestoreKeepsOwed(cfg, s, w);
    } else {
      PopKeepsOwed(cfg, s, w);
    }
  }

  lemma KeepsOwed(cfg: Config, s: System, step: Step)
    requires Sized(s) && TasksOk(cfg, s) && RunningOk(s) && OwedOk(cfg, s) && Enabled(cfg, s, step)
    ensures Sized(After(cfg, s, step)) && OwedOk(cfg, After(cfg, s, step))
  {
    if step.TakeStep? {
      TakeKeepsOwed(cfg, s, step.w);
    } else {
      var s' := After(cfg, s, step);
      forall b | Settled(s.board, b) ensures Settled(s'.board, b) {
        SettledStays(cfg, s, step, b);
      }
      assert forall u :: 0 <= u < |s.phase| ==> Owed(s'.board, u) == Owed(s.board, u);
    }
  }

  lemma KeepsGone(cfg: Config, s: System, step: Step)
    requires Sized(s) && TasksOk(cfg, s) && GoneOk(s) && Enabled(cfg, s, step)
    ensures Sized(After(cfg, s, step)) && GoneOk(After(cfg, s, step))
  {
    var s' := After(cfg, s, step);
    match step
    case TakeStep(w) =>
      OverUpdate(s.phase, w, s'.phase[w], Staying());
      if TakesRestore(s, w) {
        var _ := TakeRestores(cfg, s, w);
      } else {
        var v, _, _, _ := TakePops(cfg, s, w);
      }
    case StopStep =>
    case _ =>
      OverUpdate(s.phase, step.w, s'.phase[step.w], Staying());
  }

  // ── one result per key ─────────────────────────────────────────────────────

  lemma {:induction false} PutCounts(done: map<Key, seq<Value>>, entries: seq<Entry>, key: Key)
    ensures |Results(Put(done, entries), key)| == |Results(done, key)| + Over(entries, Puts(key))
    decreases |entries|
  {
    if entries != [] {
      PutCounts(done[entries[0].key := Results(done, entries[0].key) + [entries[0].value]], entries[1..], key);
    }
  }

  /** How often member number `p` of a batch is filed under `key`. */
  ghost function MemberIs(members: seq<nat>, key: Key): nat -> nat {
    (p: nat) => if p < |members| && Fault(members[p]) == key then 1 else 0
  }

  lemma ProvenPut(cfg: Config, task: Task, proven: seq<nat>, alone: seq<nat>,
                  entries: seq<Entry>, follow: seq<Task>, key: Key)
    requires BatchAnswers(cfg, task, proven, alone, entries, follow) && IsBatch(task.key)
    ensures Over(entries, Puts(key)) ==
            Over(proven, MemberIs(Members(cfg, task.key), key)) + (if task.key == key then 1 else 0)
  {
    var members := Members(cfg, task.key);
    var n := |proven|;
    assert entries == entries[..n] + [entries[n]];
    OverConcat(entries[..n], [entries[n]], Puts(key));
    OverMap(entries[..n], proven, Puts(key), MemberIs(members, key));
  }

  lemma AloneQueued(cfg: Config, task: Task, proven: seq<nat>, alone: seq<nat>,
                    entries: seq<Entry>, follow: seq<Task>, key: Key)
    requires BatchAnswers(cfg, task, proven, alone, entries, follow)
    ensures Over(follow, Pending(cfg, key)) == Over(alone, MemberIs(Members(cfg, task.key), key))
  {
    OverMap(follow, alone, Pending(cfg, key), MemberIs(Members(cfg, task.key), key));
  }

  /** A batch puts or queues each member once: its proven and alone members are all of them. */
  lemma BatchConserves(cfg: Config, task: Task, proven: seq<nat>, alone: seq<nat>,
                       entries: seq<Entry>, follow: seq<Task>, key: Key)
    requires BatchAnswers(cfg, task, proven, alone, entries, follow) && IsBatch(task.key)
    ensures Over(entries, Puts(key)) + Over(follow, Pending(cfg, key)) == Leaves(cfg, key, task)
  {
    var members := Members(cfg, task.key);
    var f := MemberIs(members, key);
    ProvenPut(cfg, task, proven, alone, entries, follow, key);
    AloneQueued(cfg, task, proven, alone, entries, follow, key);
    OverConcat(proven, alone, f);
    OverPermuted(proven + alone, Range(|members|), f);
    OverMap(Range(|members|), members, f, FaultIs(key));
  }

  lemma AnswersConserve(cfg: Config, touched: seq<Command>, task: Task,
                        entries: seq<Entry>, follow: seq<Task>, key: Key)
    requires BusyOk(cfg, task) && Answers(cfg, touched, task, entries, follow) && Counted(key)
    ensures Over(entries, Puts(key)) + Over(follow, Pending(cfg, key)) == Leaves(cfg, key, task)
  {
    if IsBatch(task.key) {
      var proven, alone :| BatchAnswers(cfg, task, proven, alone, entries, follow);
      BatchConserves(cfg, task, proven, alone, entries, follow, key);
    } else if task.key.Restore? {
      OverZero(entries, Puts(key));
    } else {
      assert entries == [entries[0]];
    }
  }

  lemma RestoreConserves(cfg: Config, s: System, w: nat, key: Key)
    requires CanTake(s, w) && TakesRestore(s, w) && Counted(key)
    ensures var s' := After(cfg, s, TakeStep(w));
            && s'.board.done == s.board.done && s'.board.error == s.board.error
            && Outstanding(cfg, s', key) == Outstanding(cfg, s, key)
  {
    var b := TakeRestores(cfg, s, w);
    OverUpdate(s.phase, w, Busy(Task(Restore(b), true, None)), PhasePending(cfg, key));
  }

  lemma PopConserves(cfg: Config, s: System, w: nat, key: Key)
    requires CanTake(s, w) && !TakesRestore(s, w) && TasksOk(cfg, s)
    ensures var s' := After(cfg, s, TakeStep(w));
            && s'.board.done == s.board.done && s'.board.error == s.board.error
            && Outstanding(cfg, s', key) == Outstanding(cfg, s, key)
  {
    var v, at, task, _ := TakePops(cfg, s, w);
    OverUpdate(s.phase, w, Busy(task), PhasePending(cfg, key));
    OverRemove(s.board.queues[v], at, Pending(cfg, key));
    OverUpdate(s.board.queues, v, Without(s.board.queues[v], at), QueuePending(cfg, key));
  }

  lemma TakeConserves(cfg: Config, s: System, w: nat, key: Key)
    requires Sized(s) && TasksOk(cfg, s) && CanTake(s, w) && Counted(key)
    ensures var s' := After(cfg, s, TakeStep(w));
            && s'.board.done == s.board.done && s'.board.error == s.board.error
            && Outstanding(cfg, s', key) == Outstanding(cfg, s, key)
  {
    if TakesRestore(s, w) {
      RestoreConserves(cfg, s, w, key);
    } else {
      PopConserves(cfg, s, w, key);
    }
  }

  lemma FinishConserves(cfg: Config, s: System, w: nat, entries: seq<Entry>, follow: seq<Task>, key: Key)
    requires Sized(s) && TasksOk(cfg, s) && Enabled(cfg, s, FinishStep(w, entries, follow)) && Counted(key)
    ensures var s' := After(cfg, s, FinishStep(w, entries, follow));
            |Results(s'.board.done, key)| + Outstanding(cfg, s', key)
            == |Results(s.board.done, key)| + Outstanding(cfg, s, key)
  {
    OverUpdate(s.phase, w, Idle, PhasePending(cfg, key));
    PutCounts(s.board.done, entries, key);
    OverConcat(follow, s.board.queues[w], Pending(cfg, key));
    OverUpdate(s.board.queues, w, follow + s.board.queues[w], QueuePending(cfg, key));
    AnswersConserve(cfg, s.touched[w], s.phase[w].task, entries, follow, key);
  }

  lemma KeepsConserved(cfg: Config, s: System, step: Step, key: Key)
    requires Sized(s) && TasksOk(cfg, s) && Enabled(cfg, s, step) && Counted(key)
    ensures var s' := After(cfg, s, step);
            var n := |Results(s'.board.done, key)| + Outstanding(cfg, s', key);
            n <= |Results(s.board.done, key)| + Outstanding(cfg, s, key) &&
            (!s'.board.error ==> n == |Results(s.board.done, key)| + Outstanding(cfg, s, key))
  {
    match step
    case TakeStep(w) => TakeConserves(cfg, s, w, key);
    case FinishStep(w, entries, follow) => FinishConserves(cfg, s, w, entries, follow, key);
    case StopStep =>
    case _ => OverUpdate(s.phase, step.w, Gone, PhasePending(cfg, key));
  }

  // ── one restored result per worker that ran the command ────────────────────

  lemma SamePayers(cfg: Config, s: System, s': System, c: Command)
    requires Sized(s) && Sized(s') && |s.phase| == |s'.phase|
    requires forall w :: 0 <= w < |s.phase| ==> Paid(cfg, s, c, w) == Paid(cfg, s', c, w)
    ensures Over(Range(|s.phase|), PaidBy(cfg, s, c)) == Over(Range(|s'.phase|), PaidBy(cfg, s', c))
  {
    OverMap(Range(|s.phase|), Range(|s'.phase|), PaidBy(cfg, s, c), PaidBy(cfg, s', c));
  }

  lemma TakeKeepsPayers(cfg: Config, s: System, w: nat, c: Command, u: nat)
    requires Sized(s) && TasksOk(cfg, s) && OwedOk(cfg, s) && CanTake(s, w) && u < |s.phase|
    ensures Sized(After(cfg, s, TakeStep(w)))
    ensures Paid(cfg, s, c, u) == Paid(cfg, After(cfg, s, TakeStep(w)), c, u)
  {
    var s' := After(cfg, s, TakeStep(w));
    var task := Boards.Next(s.board, w).task;
    TouchedKeepsDistinct(cfg, s.touched[w], task);
    if TakesRestore(s, w) {
      var b := TakeRestores(cfg, s, w);
    } else {
      var v, at, _, b := TakePops(cfg, s, w);
      assert QueuedIn(s.board.queues[v], b) && Queued(s.board.queues, b);
      SetDefaultKeepsDistinct(Owed(s.board, w), b);
      assert u != w ==> Owed(s'.board, u) == Owed(s.board, u);
    }
  }

  lemma {:induction false} BuildingOnce(cfg: Config, touched: seq<Command>, build: Build, c: Command)
    requires NoDuplicates(touched)
    ensures forall d :: d in Building(cfg, touched, build) <==> d in touched && cfg.buildOf(d) == build
    ensures NoDuplicates(Building(cfg, touched, build))
  {
    if touched != [] {
      BuildingOnce(cfg, touched[1..], build, c);
      assert touched[0] !in touched[1..];
    }
  }

  ghost function Is<T(!new)>(x: T): T -> nat {
    (y: T) => if y == x then 1 else 0
  }

  lemma {:induction false} OnceInDistinct<T(!new)>(xs: seq<T>, x: T)
    requires NoDuplicates(xs)
    ensures Over(xs, Is(x)) == if x in xs then 1 else 0
  {
    if xs != [] {
      OnceInDistinct(xs[1..], x);
      assert xs[0] !in xs[1..];
    }
  }

  lemma RestorePutsEach(cfg: Config, touched: seq<Command>, task: Task, entries: seq<Entry>, c: Command)
    requires task.key.Restore? && NoDuplicates(touched) && Answers(cfg, touched, task, entries, [])
    ensures Over(entries, Puts(Run(c))) == if c in touched && cfg.buildOf(c) == task.key.build then 1 else 0
  {
    var cs := Building(cfg, touched, task.key.build);
    BuildingOnce(cfg, touched, task.key.build, c);
    OverMap(entries, cs, Puts(Run(c)), Is(c));
    OnceInDistinct(cs, c);
  }

  lemma SeedPutsNoRun(cfg: Config, touched: seq<Command>, task: Task, entries: seq<Entry>, follow: seq<Task>,
                      c: Command)
    requires Seeds(cfg, task) && Answers(cfg, touched, task, entries, follow)
    ensures Over(entries, Puts(Run(c))) == 0
  {
    if IsBatch(task.key) {
      var proven, alone :| BatchAnswers(cfg, task, proven, alone, entries, follow);
      ProvenPut(cfg, task, proven, alone, entries, follow, Run(c));
      OverZero(proven, MemberIs(Members(cfg, task.key), Run(c)));
    } else {
      OverZero(entries, Puts(Run(c)));
    }
  }

  /** A task that seeds faults puts no restored result and pays for none. */
  lemma SeedFinishKeepsRestored(cfg: Config, s: System, w: nat, entries: seq<Entry>, follow: seq<Task>, c: Command)
    requires Enabled(cfg, s, FinishStep(w, entries, follow)) && RestoredAll(cfg, s, c)
    requires Seeds(cfg, s.phase[w].task)
    ensures var s' := After(cfg, s, FinishStep(w, entries, follow)); Sized(s') && RestoredAll(cfg, s', c)
  {
    var s' := After(cfg, s, FinishStep(w, entries, follow));
    PutCounts(s.board.done, entries, Run(c));
    SeedPutsNoRun(cfg, s.touched[w], s.phase[w].task, entries, follow, c);
    forall u | 0 <= u < |s.phase| ensures Paid(cfg, s, c, u) == Paid(cfg, s', c, u) {
      assert Owed(s'.board, u) == Owed(s.board, u);
    }
    SamePayers(cfg, s, s', c);
  }

  /** A restored run puts one for each command it pays for. */
  lemma RestoreFinishKeepsRestored(cfg: Config, s: System, w: nat, entries: seq<Entry>, c: Command)
    requires Enabled(cfg, s, FinishStep(w, entries, [])) && RestoredAll(cfg, s, c)
    requires s.phase[w].task.key.Restore? && s.phase[w].task.key.build !in Owed(s.board, w)
    requires NoDuplicates(s.touched[w])
    ensures var s' := After(cfg, s, FinishStep(w, entries, [])); Sized(s') && RestoredAll(cfg, s', c)
  {
    var s' := After(cfg, s, FinishStep(w, entries, []));
    PutCounts(s.board.done, entries, Run(c));
    RestorePutsEach(cfg, s.touched[w], s.phase[w].task, entries, c);
    forall u | 0 <= u < |s.phase| && u != w ensures Paid(cfg, s, c, u) == Paid(cfg, s', c, u) {
      assert Owed(s'.board, u) == Owed(s.board, u);
    }
    OverChangeAt(Range(|s.phase|), w, PaidBy(cfg, s, c), PaidBy(cfg, s', c));
  }

  lemma FinishKeepsRestored(cfg: Config, s: System, w: nat, entries: seq<Entry>, follow: seq<Task>, c: Command)
    requires OwnTaskOk(cfg, s, w) && Enabled(cfg, s, FinishStep(w, entries, follow)) && RestoredAll(cfg, s, c)
    ensures var s' := After(cfg, s, FinishStep(w, entries, follow)); Sized(s') && RestoredAll(cfg, s', c)
  {
    var task := s.phase[w].task;
    if Seeds(cfg, task) {
      SeedFinishKeepsRestored(cfg, s, w, entries, follow, c);
    } else {
      assert follow == [];
      RestoreFinishKeepsRestored(cfg, s, w, entries, c);
    }
  }

  /** What the invariant says of one busy worker's own task. */
  ghost predicate OwnTaskOk(cfg: Config, s: System, w: nat) {
    Sized(s) && w < |s.phase| && s.phase[w].Busy? && BusyOk(cfg, s.phase[w].task) && NoDuplicates(s.touched[w])
    && OwesFor(s.board, s.phase[w].task, Owed(s.board, w))
  }

  lemma TakeKeepsRestored(cfg: Config, s: System, w: nat, c: Command)
    requires Sized(s) && TasksOk(cfg, s) && OwedOk(cfg, s) && CanTake(s, w) && RestoredAll(cfg, s, c)
    ensures var s' := After(cfg, s, TakeStep(w)); Sized(s') && RestoredAll(cfg, s', c)
  {
    var s' := After(cfg, s, TakeStep(w));
    TakeKeepsDone(cfg, s, w);
    forall u | 0 <= u < |s.phase| ensures Paid(cfg, s, c, u) == Paid(cfg, s', c, u) {
      TakeKeepsPayers(cfg, s, w, c, u);
    }
    SamePayers(cfg, s, s', c);
  }

  lemma TakeKeepsDone(cfg: Config, s: System, w: nat)
    requires Sized(s) && TasksOk(cfg, s) && CanTake(s, w)
    ensures var s' := After(cfg, s, TakeStep(w));
      Sized(s') && |s'.phase| == |s.phase| && s'.board.done == s.board.done && s'.board.error == s.board.error
  {
    if TakesRestore(s, w) {
      var _ := TakeRestores(cfg, s, w);
    } else {
      var _, _, _, _ := TakePops(cfg, s, w);
    }
  }

  lemma LeaveKeepsRestored(cfg: Config, s: System, w: nat, c: Command)
    requires CanLeave(s, w) && RestoredAll(cfg, s, c)
    ensures var s' := After(cfg, s, LeaveStep(w)); Sized(s') && RestoredAll(cfg, s', c)
  {
    SamePayers(cfg, s, After(cfg, s, LeaveStep(w)), c);
  }

  lemma KeepsRestoredOf(cfg: Config, s: System, step: Step, c: Command)
    requires Inv(cfg, s) && Enabled(cfg, s, step) && !s.board.error && !After(cfg, s, step).board.error
    ensures Sized(After(cfg, s, step)) && RestoredAll(cfg, After(cfg, s, step), c)
  {
    assert RestoredAll(cfg, s, c);
    match step
    case TakeStep(w) => TakeKeepsRestored(cfg, s, w, c);
    case FinishStep(w, entries, follow) => FinishKeepsRestored(cfg, s, w, entries, follow, c);
    case LeaveStep(w) => LeaveKeepsRestored(cfg, s, w, c);
    case CrashStep(_) =>
    case StopStep =>
  }

  lemma KeepsRestored(cfg: Config, s: System, step: Step)
    requires Inv(cfg, s) && Enabled(cfg, s, step)
    ensures Sized(After(cfg, s, step)) && RestoredOk(cfg, After(cfg, s, step))
  {
    var s' := After(cfg, s, step);
    KeepsTasks(cfg, s, step);
    if !s.board.error && !s'.board.error {
      forall c ensures RestoredAll(cfg, s', c) {
        KeepsRestoredOf(cfg, s, step, c);
      }
    }
  }

  // ── the invariant holds at every step ──────────────────────────────────────

  lemma InitInv(cfg: Config, s: System)
    requires Init(cfg, s)
    ensures Inv(cfg, s)
  {
    forall b ensures Over(s.phase, OnBuild(b)) == 0 {
      OverZero(s.phase, OnBuild(b));
    }
    forall key ensures Over(s.phase, PhasePending(cfg, key)) == 0 {
      OverZero(s.phase, PhasePending(cfg, key));
    }
    forall c ensures Over(Range(|s.phase|), PaidBy(cfg, s, c)) == 0 {
      OverZero(Range(|s.phase|), PaidBy(cfg, s, c));
    }
    AllStay(s.phase);
  }

  lemma {:induction false} AllStay(phase: seq<Phase>)
    requires forall w :: 0 <= w < |phase| ==> !phase[w].Gone?
    ensures Over(phase, Staying()) == |phase|
  {
    if phase != [] {
      AllStay(phase[1..]);
    }
  }

  lemma StepInv(cfg: Config, s: System, step: Step)
    requires Inv(cfg, s) && Enabled(cfg, s, step)
    ensures Inv(cfg, After(cfg, s, step))
  {
    KeepsTasks(cfg, s, step);
    KeepsRunning(cfg, s, step);
    KeepsOwed(cfg, s, step);
    KeepsGone(cfg, s, step);
    forall key | Counted(key)
      ensures var s' := After(cfg, s, step);
              var n := |Results(s'.board.done, key)| + Outstanding(cfg, s', key);
              var total := Over(cfg.queues, QueuePending(cfg, key));
              n <= total && (!s'.board.error ==> n == total)
    {
      KeepsConserved(cfg, s, step, key);
    }
    KeepsRestored(cfg, s, step);
  }
}
