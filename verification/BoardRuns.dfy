/** Every run of the fault phase: the workers of tools/check-guards-fire.py's `start` loop over
    one `Board`, in any interleaving. Each locked method is one step, a worker's `do` is whatever
    the fault phase's task functions may answer, and a worker may crash or the run be stopped at
    any point. */
module BoardRuns {
  import opened Prelude
  import opened Boards

  /** What the phase starts from. `commandOf` is each selected fault's command, `buildOf` what a
      command builds, `lint` and `script` the batches' members, `queues` the fault queues. */
  datatype Config = Config(
    commandOf: seq<Command>,
    buildOf: Command -> Build,
    lint: map<Command, seq<nat>>,
    script: map<(Command, nat), seq<nat>>,
    queues: seq<seq<Task>>)

  datatype Phase = Idle | Busy(task: Task) | Gone

  datatype System = System(board: State, phase: seq<Phase>, touched: seq<seq<Command>>)

  predicate IsBatch(key: Key) {
    key.LintBatch? || key.ScriptBatch?
  }

  function Members(cfg: Config, key: Key): seq<nat> {
    match key
    case LintBatch(c) => if c in cfg.lint then cfg.lint[c] else []
    case ScriptBatch(c, n) => if (c, n) in cfg.script then cfg.script[(c, n)] else []
    case _ => []
  }

  /** `task` seeds faults of one command, and carries that command's build. */
  ghost predicate Seeds(cfg: Config, task: Task) {
    match task.key
    case Fault(i) => i < |cfg.commandOf| && task.build == Some(cfg.buildOf(cfg.commandOf[i]))
    case LintBatch(c) => task.build == Some(cfg.buildOf(c)) && OneCommand(cfg, Members(cfg, task.key), c)
    case ScriptBatch(c, _) => task.build == Some(cfg.buildOf(c)) && OneCommand(cfg, Members(cfg, task.key), c)
    case _ => false
  }

  ghost predicate AllSeed(cfg: Config, queue: seq<Task>) {
    forall i :: 0 <= i < |queue| ==> Seeds(cfg, queue[i])
  }

  /** A task a worker can be busy with: one from a queue, or a restored run. */
  ghost predicate BusyOk(cfg: Config, task: Task) {
    Seeds(cfg, task) || (task.key.Restore? && task.build == None)
  }

  ghost predicate OneCommand(cfg: Config, members: seq<nat>, c: Command) {
    forall i :: 0 <= i < |members| ==> members[i] < |cfg.commandOf| && cfg.commandOf[members[i]] == c
  }

  /** The commands a worker has run once its task starts. */
  function Touched(cfg: Config, touched: seq<Command>, task: Task): seq<Command> {
    match task.key
    case Fault(i) => if i < |cfg.commandOf| then SetDefault(touched, cfg.commandOf[i]) else touched
    case LintBatch(c) => SetDefault(touched, c)
    case ScriptBatch(c, _) => SetDefault(touched, c)
    case _ => touched
  }

  /** The touched commands that build `build`, in order. */
  function Building(cfg: Config, touched: seq<Command>, build: Build): seq<Command> {
    if touched == [] then []
    else (if cfg.buildOf(touched[0]) == build then [touched[0]] else []) + Building(cfg, touched[1..], build)
  }

  ghost predicate Splits(proven: seq<nat>, alone: seq<nat>, n: nat) {
    multiset(proven + alone) == multiset(Range(n))
  }

  /** What `run_task` may answer: a verdict for a fault; for a batch, a verdict for each proven
      member, its own report, and a task for each other member; for a restored run, a result for
      each touched command of the build. */
  ghost predicate Answers(cfg: Config, touched: seq<Command>, task: Task, entries: seq<Entry>, follow: seq<Task>) {
    match task.key
    case Fault(_) => |entries| == 1 && entries[0].key == task.key && follow == []
    case Restore(b) =>
      && follow == []
      && |entries| == |Building(cfg, touched, b)|
      && forall i :: 0 <= i < |entries| ==> entries[i].key == Run(Building(cfg, touched, b)[i])
    case Run(_) => false
    case _ => exists proven, alone :: BatchAnswers(cfg, task, proven, alone, entries, follow)
  }

  ghost predicate BatchAnswers(cfg: Config, task: Task, proven: seq<nat>, alone: seq<nat>,
                               entries: seq<Entry>, follow: seq<Task>) {
    var members := Members(cfg, task.key);
    && Splits(proven, alone, |members|)
    && InRange(proven, |members|) && InRange(alone, |members|)
    && |entries| == |proven| + 1 && |follow| == |alone|
    && (forall i :: 0 <= i < |proven| ==> entries[i].key == Fault(members[proven[i]]))
    && entries[|proven|].key == task.key
    && forall i :: 0 <= i < |alone| ==>
                     follow[i].key == Fault(members[alone[i]]) && follow[i].build == task.build
  }

  ghost predicate InRange(positions: seq<nat>, n: nat) {
    forall i :: 0 <= i < |positions| ==> positions[i] < n
  }

  // ── steps ──────────────────────────────────────────────────────────────────

  datatype Step =
    | TakeStep(w: nat)
    | FinishStep(w: nat, entries: seq<Entry>, follow: seq<Task>)
    | LeaveStep(w: nat)
    | CrashStep(w: nat)
    | StopStep

  ghost predicate Sized(s: System) {
    && s.board.restores.Some?
    && |s.board.queues| == |s.board.restores.value| == |s.phase| == |s.touched|
  }

  ghost predicate CanTake(s: System, w: nat) {
    Sized(s) && w < |s.phase| && s.phase[w].Idle? && !s.board.error && Boards.Next(s.board, w).Take?
  }

  ghost predicate CanLeave(s: System, w: nat) {
    Sized(s) && w < |s.phase| && s.phase[w].Idle? && (s.board.error || Boards.Next(s.board, w).Nothing?)
  }

  ghost predicate IsBusy(s: System, w: nat) {
    Sized(s) && w < |s.phase| && s.phase[w].Busy?
  }

  ghost predicate Enabled(cfg: Config, s: System, step: Step) {
    match step
    case TakeStep(w) => CanTake(s, w)
    case FinishStep(w, entries, follow) =>
      IsBusy(s, w) && Answers(cfg, s.touched[w], s.phase[w].task, entries, follow)
    case LeaveStep(w) => CanLeave(s, w)
    case CrashStep(w) => IsBusy(s, w)
    case StopStep => !s.board.error
  }

  ghost function After(cfg: Config, s: System, step: Step): System
    requires Enabled(cfg, s, step)
  {
    match step
    case TakeStep(w) =>
      var task := Boards.Next(s.board, w).task;
      s.(board := AfterNext(s.board, w),
         phase := s.phase[w := Busy(task)],
         touched := s.touched[w := Touched(cfg, s.touched[w], task)])
    case FinishStep(w, entries, follow) =>
      s.(board := AfterFinish(s.board, w, s.phase[w].task, entries, follow), phase := s.phase[w := Idle])
    case LeaveStep(w) => s.(board := s.board.(left := s.board.left - 1), phase := s.phase[w := Gone])
    case CrashStep(w) => s.(board := s.board.(error := true, left := s.board.left - 1), phase := s.phase[w := Gone])
    case StopStep => s.(board := s.board.(error := true))
  }

  // ── what is counted ────────────────────────────────────────────────────────

  /** A key a seeding task puts a result under exactly once: a fault's index or a batch's. */
  predicate Counted(key: Key) {
    key.Fault? || IsBatch(key)
  }

  ghost function FaultIs(key: Key): nat -> nat {
    (m: nat) => if Fault(m) == key then 1 else 0
  }

  ghost function Puts(key: Key): Entry -> nat {
    (e: Entry) => if e.key == key then 1 else 0
  }

  /** How many results under `key` a task and what it leaves will put. */
  ghost function Leaves(cfg: Config, key: Key, t: Task): nat {
    (if t.key == key then 1 else 0) + Over(Members(cfg, t.key), FaultIs(key))
  }

  ghost function Pending(cfg: Config, key: Key): Task -> nat {
    (t: Task) => Leaves(cfg, key, t)
  }

  ghost function QueuePending(cfg: Config, key: Key): seq<Task> -> nat {
    (q: seq<Task>) => Over(q, Pending(cfg, key))
  }

  ghost function PhasePending(cfg: Config, key: Key): Phase -> nat {
    (p: Phase) => if p.Busy? then Leaves(cfg, key, p.task) else 0
  }

  ghost function Outstanding(cfg: Config, s: System, key: Key): nat {
    Over(s.board.queues, QueuePending(cfg, key)) + Over(s.phase, PhasePending(cfg, key))
  }

  ghost function OnBuild(build: Build): Phase -> nat {
    (p: Phase) => if p.Busy? && p.task.build == Some(build) then 1 else 0
  }

  ghost function Staying(): Phase -> nat {
    (p: Phase) => if p.Gone? then 0 else 1
  }

  // ── the invariant ──────────────────────────────────────────────────────────

  ghost predicate TasksOk(cfg: Config, s: System)
    requires Sized(s)
  {
    && (forall w :: 0 <= w < |s.phase| ==> AllSeed(cfg, s.board.queues[w]))
    && (forall w :: 0 <= w < |s.phase| && s.phase[w].Busy? ==> BusyOk(cfg, s.phase[w].task))
    && (forall w :: 0 <= w < |s.phase| ==> NoDuplicates(s.touched[w]) && NoDuplicates(s.board.restores.value[w]))
  }

  ghost predicate RunningOk(s: System) {
    forall b :: Count(s.board.running, b) >= Over(s.phase, OnBuild(b)) &&
                (!s.board.error ==> Count(s.board.running, b) == Over(s.phase, OnBuild(b)))
  }

  /** A worker owes each build of a command it ran until the build is settled, owes its own
      task's build while the task runs, and owes nothing it is restoring. */
  ghost predicate OwedOk(cfg: Config, s: System)
    requires Sized(s)
  {
    && (forall w, c :: 0 <= w < |s.phase| && c in s.touched[w] && !Settled(s.board, cfg.buildOf(c)) ==>
                         cfg.buildOf(c) in Owed(s.board, w))
    && (forall w, b :: 0 <= w < |s.phase| && b in Owed(s.board, w) ==>
                         exists c :: c in s.touched[w] && cfg.buildOf(c) == b)
    && (forall w :: 0 <= w < |s.phase| && s.phase[w].Busy? ==> OwesFor(s.board, s.phase[w].task, Owed(s.board, w)))
  }

  ghost predicate OwesFor(board: State, task: Task, owed: seq<Build>) {
    && (task.build.Some? ==> task.build.value in owed)
    && (task.key.Restore? ==> Settled(board, task.key.build) && task.key.build !in owed)
  }

  ghost predicate GoneOk(s: System)
    requires Sized(s)
  {
    && s.board.left == Over(s.phase, Staying())
    && (!s.board.error ==>
          forall w :: 0 <= w < |s.phase| && s.phase[w].Gone? ==> s.board.queues[w] == [] && Owed(s.board, w) == [])
  }

  ghost predicate ConservedOk(cfg: Config, s: System) {
    forall key :: Counted(key) ==>
                    var n := |Results(s.board.done, key)| + Outstanding(cfg, s, key);
                    var total := Over(cfg.queues, QueuePending(cfg, key));
                    n <= total && (!s.board.error ==> n == total)
  }

  /** Worker `w` ran `c` and has put its restored result: it no longer owes the build, and isn't
      restoring it. */
  ghost predicate Paid(cfg: Config, s: System, c: Command, w: nat)
    requires Sized(s)
  {
    w < |s.phase| && c in s.touched[w] && cfg.buildOf(c) !in Owed(s.board, w) &&
    !(s.phase[w].Busy? && s.phase[w].task.key == Restore(cfg.buildOf(c)))
  }

  ghost function PaidBy(cfg: Config, s: System, c: Command): nat -> nat
    requires Sized(s)
  {
    (w: nat) => if Paid(cfg, s, c, w) then 1 else 0
  }

  /** There is one restored result of `c` for each worker that has paid for it. */
  ghost predicate RestoredAll(cfg: Config, s: System, c: Command)
    requires Sized(s)
  {
    |Results(s.board.done, Run(c))| == Over(Range(|s.phase|), PaidBy(cfg, s, c))
  }

  ghost predicate RestoredOk(cfg: Config, s: System)
    requires Sized(s)
  {
    !s.board.error ==> forall c :: RestoredAll(cfg, s, c)
  }

  ghost predicate Inv(cfg: Config, s: System) {
    && Sized(s) && TasksOk(cfg, s) && RunningOk(s) && OwedOk(cfg, s) && GoneOk(s)
    && ConservedOk(cfg, s) && RestoredOk(cfg, s)
  }

  /** How the fault phase starts: every worker idle, owing each build it ran clean. */
  ghost predicate Init(cfg: Config, s: System) {
    && Sized(s)
    && s.board.queues == cfg.queues && s.board.running == map[] && s.board.done == map[]
    && !s.board.error && s.board.left == |s.phase|
    && (forall w :: 0 <= w < |s.phase| ==> s.phase[w].Idle?)
    && (forall w :: 0 <= w < |cfg.queues| ==> AllSeed(cfg, cfg.queues[w]))
    && (forall w :: 0 <= w < |s.phase| ==>
                      && NoDuplicates(s.touched[w]) && NoDuplicates(Owed(s.board, w))
                      && (forall c :: c in s.touched[w] ==> cfg.buildOf(c) in Owed(s.board, w))
                      && forall b :: b in Owed(s.board, w) ==> exists c :: c in s.touched[w] && cfg.buildOf(c) == b)
  }
}
