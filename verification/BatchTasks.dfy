/** A batch's task from start to finish (`run_batch` and `run_script_batch` of
    tools/check-guards-fire.py), its command's run given: seed what joins, read the run, and hand
    the board a verdict for each proven entry and a task for each other one. */
module BatchTasks {
  import opened Prelude
  import opened Seeding
  import opened Boards
  import opened BoardRuns
  import opened FaultPhase
  import opened FaultQueues
  import Batches
  import Attribution

  // ── lint batches ───────────────────────────────────────────────────────────

  /** The entries with lines in the run that it proves. */
  ghost function Fired(said: seq<Attribution.Said>, code: int, regions: map<nat, set<Batches.Region>>,
                       messages: seq<string>): set<nat> {
    set p | p in regions && Attribution.Proves(said, code, regions, messages, p)
  }

  /** `said` and `code` are the run's, read only when two entries or more joined. */
  method RunBatch(cfg: Config, ghost touched: seq<Command>, task: Task, tree: Tree, faults: seq<Seeding.Fault>,
                  messages: seq<string>, said: seq<Attribution.Said>, code: int)
    returns (plan: Batches.Plan, outcome: Outcome)
    requires Seeds(cfg, task) && task.key.LintBatch?
    requires |faults| == |messages| == |Members(cfg, task.key)|
    ensures Batches.IsPlan(tree, faults, plan)
    ensures var (joined, fired) := (plan.regions.Keys, Fired(said, code, plan.regions, messages));
            outcome == Assemble(task, Members(cfg, task.key), plan.alone.Keys, joined, fired, joined - fired)
    ensures HandsBack(task, Members(cfg, task.key), outcome)
    ensures LintReport(said, code, messages, plan.regions, plan.alone.Keys, ReportOf(outcome))
    ensures Answers(cfg, touched, task, outcome.entries, outcome.follow)
  {
    plan := Batches.PlanBatch(tree, faults);
    Batches.PlanPartitions(tree, faults, plan);
    outcome := Conclude(cfg, touched, task, plan.alone.Keys, plan.regions, messages, said, code);
    LintReports(task, Members(cfg, task.key), said, code, messages, plan.regions, plan.alone.Keys, outcome);
  }

  /** With two entries joined or more, the run proves what `Attribution.Proves` says and all else runs
      alone; with fewer, everything does. */
  ghost predicate LintReport(said: seq<Attribution.Said>, code: int, messages: seq<string>,
                             regions: map<nat, set<Batches.Region>>, alone: set<nat>, r: Value) {
    && r.Report? && r.ran == (|regions| > 1)
    && (forall p: nat :: p in r.proven <==>
          |regions| > 1 && p in regions && Attribution.Proves(said, code, regions, messages, p))
    && (forall p: nat :: p in r.alone <==>
          p in alone || (p in regions && !(|regions| > 1 && Attribution.Proves(said, code, regions, messages, p))))
  }

  lemma LintReports(task: Task, members: seq<nat>, said: seq<Attribution.Said>, code: int, messages: seq<string>,
                    regions: map<nat, set<Batches.Region>>, alone: set<nat>, o: Outcome)
    requires forall p: nat :: p < |members| <==> p in regions.Keys + alone
    requires var fired := Fired(said, code, regions, messages);
             o == Assemble(task, members, alone, regions.Keys, fired, regions.Keys - fired)
    ensures HandsBack(task, members, o) && LintReport(said, code, messages, regions, alone, ReportOf(o))
  {
    var fired := Fired(said, code, regions, messages);
    assert alone + regions.Keys == regions.Keys + alone;
    AssembleHandsBack(task, members, alone, regions.Keys, fired, regions.Keys - fired);
  }

  method Conclude(cfg: Config, ghost touched: seq<Command>, task: Task, alone: set<nat>,
                  regions: map<nat, set<Batches.Region>>, messages: seq<string>, said: seq<Attribution.Said>, code: int)
    returns (outcome: Outcome)
    requires Seeds(cfg, task) && task.key.LintBatch? && |messages| == |Members(cfg, task.key)|
    requires alone !! regions.Keys && forall p: nat :: p < |messages| <==> p in regions.Keys + alone
    ensures var (joined, fired) := (regions.Keys, Fired(said, code, regions, messages));
            outcome == Assemble(task, Members(cfg, task.key), alone, joined, fired, joined - fired)
    ensures Answers(cfg, touched, task, outcome.entries, outcome.follow)
  {
    var joined := regions.Keys;
    assert forall p :: p in regions ==> p in regions.Keys + alone;
    var proven, unproven := ReadRun(said, code, regions, messages);
    assert alone + joined == regions.Keys + alone;
    NoneReadAlone(task, Members(cfg, task.key), alone, joined, proven, unproven,
                  Fired(said, code, regions, messages));
    outcome := HandBack(cfg, touched, task, alone, joined, proven, unproven);
  }

  method ReadRun(said: seq<Attribution.Said>, code: int, regions: map<nat, set<Batches.Region>>, messages: seq<string>)
    returns (proven: set<nat>, unproven: set<nat>)
    requires forall p :: p in regions ==> p < |messages|
    ensures proven !! unproven && proven + unproven == regions.Keys
    ensures |regions.Keys| > 1 ==> (proven == Fired(said, code, regions, messages)
                                    && unproven == regions.Keys - Fired(said, code, regions, messages))
  {
    proven, unproven := {}, regions.Keys;
    if |regions.Keys| > 1 {
      proven, unproven := Attribution.Attribute(said, code, regions, messages);
      assert proven == Fired(said, code, regions, messages);
    }
  }

  /** Where one entry joined or none, no run is read, and what it would prove doesn't count. */
  lemma NoneReadAlone(task: Task, members: seq<nat>, refused: set<nat>, joined: set<nat>,
                      proven: set<nat>, unproven: set<nat>, named: set<nat>)
    requires |joined| > 1 ==> proven == named && unproven == joined - named
    ensures Assemble(task, members, refused, joined, proven, unproven)
         == Assemble(task, members, refused, joined, named, joined - named)
  {
  }

  method HandBack(cfg: Config, ghost touched: seq<Command>, task: Task,
                  refused: set<nat>, joined: set<nat>, proven: set<nat>, unproven: set<nat>)
    returns (outcome: Outcome)
    requires Seeds(cfg, task) && IsBatch(task.key)
    requires refused !! joined && proven !! unproven
    requires forall p: nat :: p < |Members(cfg, task.key)| <==> p in refused + joined
    requires |joined| > 1 ==> proven + unproven == joined
    ensures outcome == Assemble(task, Members(cfg, task.key), refused, joined, proven, unproven)
    ensures Answers(cfg, touched, task, outcome.entries, outcome.follow)
  {
    outcome := Assemble(task, Members(cfg, task.key), refused, joined, proven, unproven);
    BatchAnswersWell(cfg, touched, task, refused, joined, proven, unproven);
  }

  /** The plan's regions are ones a diagnostic has at most one owner among. */
  lemma PlanRegionsDisjoint(tree: Tree, faults: seq<Seeding.Fault>, plan: Batches.Plan)
    requires Batches.IsPlan(tree, faults, plan)
    ensures Attribution.Disjoint(plan.regions)
  {
    forall p, q, r, s | p in plan.regions && q in plan.regions && p != q
                        && r in plan.regions[p] && s in plan.regions[q] && r.file == s.file
      ensures r.last < s.first || s.last < r.first
    {
      Batches.RegionsDisjoint(tree, faults, plan, p, q, r, s);
    }
  }

  // ── script batches ─────────────────────────────────────────────────────────

  function Pick<T>(xs: seq<T>, positions: seq<nat>): (r: seq<T>)
    requires InRange(positions, |xs|)
    ensures |r| == |positions| && forall i :: 0 <= i < |r| ==> r[i] == xs[positions[i]]
  {
    if positions == [] then [] else [xs[positions[0]]] + Pick(xs, positions[1..])
  }

  function FilesOfEach(faults: seq<Seeding.Fault>): (r: seq<set<Path>>)
    ensures |r| == |faults| && forall i :: 0 <= i < |r| ==> r[i] == Files(faults[i])
  {
    if faults == [] then [] else [Files(faults[0])] + FilesOfEach(faults[1..])
  }

  /** The positions, below `n`, whose faults apply to the clean tree. */
  function Applies(tree: Tree, faults: seq<Seeding.Fault>, n: nat): (r: set<nat>)
    requires n <= |faults|
    ensures forall p: nat :: p in r <==> p < n && Seeded(tree, faults[p]).Ok?
  {
    if n == 0 then {}
    else Applies(tree, faults, n - 1) + (if Seeded(tree, faults[n - 1]).Ok? then {n - 1} else {})
  }

  /** Some of a batch whose entries seed different files: they seed different files. */
  lemma PickedDisjoint(faults: seq<Seeding.Fault>, positions: seq<nat>)
    requires Disjoint(faults) && Increasing(positions) && InRange(positions, |faults|)
    ensures Disjoint(Pick(faults, positions))
  {
  }

  /** `seed` each joined entry into the tree in turn. Each was checked on the clean tree alone. */
  method SeedJoined(tree: Tree, faults: seq<Seeding.Fault>) returns (seeded: Tree)
    requires Disjoint(faults) && AllSeedable(tree, faults)
    ensures HoldsEach(tree, faults, seeded)
  {
    seeded := tree;
    DisjointSeedsTogether(tree, faults);
    for i := 0 to |faults|
      invariant SeedAll(seeded, faults[i..]) == SeedAll(tree, faults)
    {
      var after, why := Seed(seeded, faults[i], false);
      assert faults[i..][1..] == faults[i + 1..];
      assert why.None?;
      seeded := after;
    }
    assert faults[|faults|..] == [];
  }

  predicate NamesFile(names: (string, Path) -> bool, fault: Seeding.Fault, line: string) {
    exists f :: f in Files(fault) && names(line, f)
  }

  /** Line `i` is the one that carries entry `p`'s message, and of the entries seeded together it
      names a file of `p`'s alone. */
  ghost predicate SoleLine(names: (string, Path) -> bool, lines: seq<string>, messages: seq<string>,
                           faults: seq<Seeding.Fault>, joined: set<nat>, p: nat, i: nat)
    requires |messages| == |faults| && forall q :: q in joined ==> q < |faults|
  {
    && p in joined && Attribution.Carrying(lines, messages[p], |lines|) == [i] && i < |lines|
    && forall q :: q in joined ==> (NamesFile(names, faults[q], lines[i]) <==> q == p)
  }

  /** The joined entries that have a sole line. */
  ghost function Named(names: (string, Path) -> bool, lines: seq<string>, code: int, timedOut: bool,
                       messages: seq<string>, faults: seq<Seeding.Fault>, joined: set<nat>): set<nat>
    requires |messages| == |faults| && forall q :: q in joined ==> q < |faults|
  {
    set p | p in joined && !timedOut && code != 0 && exists i :: SoleLine(names, lines, messages, faults, joined, p, i)
  }

  lemma NamedInPicked(names: (string, Path) -> bool, faults: seq<Seeding.Fault>, order: seq<nat>, line: string, k: nat)
    requires InRange(order, |faults|) && k < |order|
    ensures k in Attribution.NamedIn(names, FilesOfEach(Pick(faults, order)), line) <==>
            NamesFile(names, faults[order[k]], line)
  {
    assert FilesOfEach(Pick(faults, order))[k] == Files(faults[order[k]]);
  }

  lemma NamedBelow(names: (string, Path) -> bool, files: seq<set<Path>>, line: string, k: nat)
    requires k in Attribution.NamedIn(names, files, line)
    ensures k < |files|
  {
  }

  lemma SolePicked(names: (string, Path) -> bool, faults: seq<Seeding.Fault>, joined: set<nat>, order: seq<nat>,
                   j: nat, line: string)
    requires (forall q :: q in joined ==> q < |faults|) && order == InOrder(joined, |faults|) && j < |order|
    requires Attribution.NamedIn(names, FilesOfEach(Pick(faults, order)), line) == {j}
    ensures forall q :: q in joined ==> (NamesFile(names, faults[q], line) <==> q == order[j])
  {
    forall q | q in joined ensures NamesFile(names, faults[q], line) <==> q == order[j] {
      assert q in order;
      var k: nat :| k < |order| && order[k] == q;
      NamedInPicked(names, faults, order, line, k);
      NamedInPicked(names, faults, order, line, j);
    }
  }

  lemma PickedSole(names: (string, Path) -> bool, faults: seq<Seeding.Fault>, joined: set<nat>, order: seq<nat>,
                   j: nat, line: string)
    requires (forall q :: q in joined ==> q < |faults|) && order == InOrder(joined, |faults|) && j < |order|
    requires forall q :: q in joined ==> (NamesFile(names, faults[q], line) <==> q == order[j])
    ensures Attribution.NamedIn(names, FilesOfEach(Pick(faults, order)), line) == {j}
  {
    var named := Attribution.NamedIn(names, FilesOfEach(Pick(faults, order)), line);
    assert order[j] in order && order[j] in joined;
    NamedInPicked(names, faults, order, line, j);
    forall k: nat | k in named ensures k == j {
      NamedBelow(names, FilesOfEach(Pick(faults, order)), line, k);
      NamedInPicked(names, faults, order, line, k);
      assert order[k] in order && order[k] in joined;
      assert order[k] == order[j];
    }
  }

  /** Reading the joined entries by their place in the list is reading them by position. */
  lemma PickedProves(names: (string, Path) -> bool, lines: seq<string>, messages: seq<string>,
                     faults: seq<Seeding.Fault>, joined: set<nat>, order: seq<nat>, j: nat, i: nat)
    requires |messages| == |faults| && (forall q :: q in joined ==> q < |faults|) && order == InOrder(joined, |faults|)
    requires j < |order|
    ensures Attribution.LineProves(names, lines, Pick(messages, order), FilesOfEach(Pick(faults, order)), j, i) <==>
            SoleLine(names, lines, messages, faults, joined, order[j], i)
  {
    assert order[j] in order;
    if Attribution.LineProves(names, lines, Pick(messages, order), FilesOfEach(Pick(faults, order)), j, i) {
      SolePicked(names, faults, joined, order, j, lines[i]);
    } else if SoleLine(names, lines, messages, faults, joined, order[j], i) {
      PickedSole(names, faults, joined, order, j, lines[i]);
    }
  }

  /** `names` reads the paths a line of output names; `lines` and `code` are the run's. */
  method RunScriptBatch(cfg: Config, ghost touched: seq<Command>, task: Task, tree: Tree, faults: seq<Seeding.Fault>,
                        messages: seq<string>, names: (string, Path) -> bool, lines: seq<string>, code: int,
                        timedOut: bool)
    returns (seeded: Tree, outcome: Outcome)
    requires Seeds(cfg, task) && task.key.ScriptBatch?
    requires |faults| == |messages| == |Members(cfg, task.key)| && Disjoint(faults)
    ensures var joined := Applies(tree, faults, |faults|);
            if |joined| > 1 then HoldsEach(tree, Pick(faults, InOrder(joined, |faults|)), seeded) else seeded == tree
    ensures var joined := Applies(tree, faults, |faults|);
            var named := Named(names, lines, code, timedOut, messages, faults, joined);
            outcome == Assemble(task, Members(cfg, task.key), Upto(|faults|) - joined, joined, named, joined - named)
    ensures HandsBack(task, Members(cfg, task.key), outcome)
    ensures ScriptReport(names, lines, code, timedOut, messages, faults, Applies(tree, faults, |faults|),
                         ReportOf(outcome))
    ensures Answers(cfg, touched, task, outcome.entries, outcome.follow)
  {
    var joined := Applies(tree, faults, |faults|);
    var proven, unproven;
    seeded, proven, unproven := SeedAndRead(tree, faults, messages, names, lines, code, timedOut, joined);
    RefusedAndJoined(joined, |faults|);
    NoneReadAlone(task, Members(cfg, task.key), Upto(|faults|) - joined, joined, proven, unproven,
                  Named(names, lines, code, timedOut, messages, faults, joined));
    outcome := HandBack(cfg, touched, task, Upto(|faults|) - joined, joined, proven, unproven);
    ScriptReports(task, Members(cfg, task.key), names, lines, code, timedOut, messages, faults, joined, outcome);
  }

  /** With two entries joined or more, the run proves those that have a sole line, if it ended in time
      and failed, and all else runs alone; with fewer, everything does. */
  ghost predicate ScriptReport(names: (string, Path) -> bool, lines: seq<string>, code: int, timedOut: bool,
                               messages: seq<string>, faults: seq<Seeding.Fault>, joined: set<nat>, r: Value)
    requires |messages| == |faults| && forall q :: q in joined ==> q < |faults|
  {
    && r.Report? && r.ran == (|joined| > 1)
    && (forall p: nat :: p in r.proven <==>
          |joined| > 1 && !timedOut && code != 0 && HasSoleLine(names, lines, messages, faults, joined, p))
    && (forall p: nat :: p in r.alone <==> p < |faults| && p !in r.proven)
  }

  ghost predicate HasSoleLine(names: (string, Path) -> bool, lines: seq<string>, messages: seq<string>,
                              faults: seq<Seeding.Fault>, joined: set<nat>, p: nat)
    requires |messages| == |faults| && forall q :: q in joined ==> q < |faults|
  {
    exists i :: SoleLine(names, lines, messages, faults, joined, p, i)
  }

  /** What runs alone is what isn't proven. */
  lemma OthersAlone(n: nat, joined: set<nat>, named: set<nat>, o: Outcome, task: Task, members: seq<nat>)
    requires (forall q :: q in joined ==> q < n) && named <= joined && |members| == n
    requires o == Assemble(task, members, Upto(n) - joined, joined, named, joined - named)
    ensures HandsBack(task, members, o) && ReportOf(o).ran == (|joined| > 1)
    ensures forall p: nat :: p in ReportOf(o).proven <==> |joined| > 1 && p in named
    ensures forall p: nat :: p in ReportOf(o).alone <==> p < n && p !in ReportOf(o).proven
  {
    AssembleHandsBack(task, members, Upto(n) - joined, joined, named, joined - named);
  }

  lemma ScriptReports(task: Task, members: seq<nat>, names: (string, Path) -> bool, lines: seq<string>, code: int,
                      timedOut: bool, messages: seq<string>, faults: seq<Seeding.Fault>, joined: set<nat>, o: Outcome)
    requires |members| == |messages| == |faults| && forall q :: q in joined ==> q < |faults|
    requires var named := Named(names, lines, code, timedOut, messages, faults, joined);
             o == Assemble(task, members, Upto(|faults|) - joined, joined, named, joined - named)
    ensures HandsBack(task, members, o)
    ensures ScriptReport(names, lines, code, timedOut, messages, faults, joined, ReportOf(o))
  {
    var named := Named(names, lines, code, timedOut, messages, faults, joined);
    OthersAlone(|faults|, joined, named, o, task, members);
    NamedExactly(names, lines, code, timedOut, messages, faults, joined);
  }

  lemma NamedExactly(names: (string, Path) -> bool, lines: seq<string>, code: int, timedOut: bool,
                     messages: seq<string>, faults: seq<Seeding.Fault>, joined: set<nat>)
    requires |messages| == |faults| && forall q :: q in joined ==> q < |faults|
    ensures forall p: nat :: p in Named(names, lines, code, timedOut, messages, faults, joined) <==>
              !timedOut && code != 0 && HasSoleLine(names, lines, messages, faults, joined, p)
  {
    forall p: nat, i: nat | SoleLine(names, lines, messages, faults, joined, p, i) ensures p in joined {
    }
  }

  lemma RefusedAndJoined(joined: set<nat>, n: nat)
    requires forall p: nat :: p in joined ==> p < n
    ensures Upto(n) - joined !! joined
    ensures forall p: nat :: p < n <==> p in Upto(n) - joined + joined
  {
  }

  method SeedAndRead(tree: Tree, faults: seq<Seeding.Fault>, messages: seq<string>, names: (string, Path) -> bool,
                     lines: seq<string>, code: int, timedOut: bool, joined: set<nat>)
    returns (seeded: Tree, proven: set<nat>, unproven: set<nat>)
    requires |messages| == |faults| && Disjoint(faults) && joined == Applies(tree, faults, |faults|)
    ensures if |joined| > 1 then HoldsEach(tree, Pick(faults, InOrder(joined, |faults|)), seeded) else seeded == tree
    ensures proven !! unproven && proven + unproven == joined
    ensures |joined| > 1 ==> (proven == Named(names, lines, code, timedOut, messages, faults, joined)
                              && unproven == joined - proven)
  {
    seeded, proven, unproven := tree, {}, joined;
    if |joined| > 1 {
      var order := InOrder(joined, |faults|);
      seeded := SeedPicked(tree, faults, joined, order);
      if !timedOut {
        proven, unproven := ReadLines(names, lines, code, faults, messages, joined, order);
      }
    }
  }

  method SeedPicked(tree: Tree, faults: seq<Seeding.Fault>, ghost joined: set<nat>, order: seq<nat>)
    returns (seeded: Tree)
    requires Disjoint(faults) && joined == Applies(tree, faults, |faults|) && order == InOrder(joined, |faults|)
    ensures HoldsEach(tree, Pick(faults, order), seeded)
  {
    var batch := Pick(faults, order);
    PickedDisjoint(faults, order);
    forall i | 0 <= i < |batch| ensures Seeded(tree, batch[i]).Ok? {
      assert order[i] in order;
    }
    seeded := SeedJoined(tree, batch);
  }

  method ReadLines(names: (string, Path) -> bool, lines: seq<string>, code: int, faults: seq<Seeding.Fault>,
                   messages: seq<string>, ghost joined: set<nat>, order: seq<nat>)
    returns (proven: set<nat>, unproven: set<nat>)
    requires |messages| == |faults| && (forall p :: p in joined ==> p < |faults|) && order == InOrder(joined, |faults|)
    ensures proven !! unproven && proven + unproven == joined
    ensures proven == Named(names, lines, code, false, messages, faults, joined)
  {
    var files := FilesOfEach(Pick(faults, order));
    var got, alone := Attribution.AttributeLines(names, lines, code, Pick(messages, order), files);
    assert forall i: nat :: i < |order| <==> i in got.Keys + alone;
    SplitJoined(joined, order, |faults|, got.Keys, alone);
    proven := set i | i in got.Keys :: order[i];
    unproven := set i | i in alone :: order[i];
    NamedByPlace(names, lines, code, messages, faults, joined, order, got.Keys);
  }

  ghost predicate PlaceProves(names: (string, Path) -> bool, lines: seq<string>, messages: seq<string>,
                              faults: seq<Seeding.Fault>, order: seq<nat>, j: nat)
    requires |messages| == |faults| && InRange(order, |faults|)
  {
    exists i :: Attribution.LineProves(names, lines, Pick(messages, order), FilesOfEach(Pick(faults, order)), j, i)
  }

  lemma NamedByPlace(names: (string, Path) -> bool, lines: seq<string>, code: int, messages: seq<string>,
                     faults: seq<Seeding.Fault>, joined: set<nat>, order: seq<nat>, got: set<nat>)
    requires |messages| == |faults| && (forall q :: q in joined ==> q < |faults|) && order == InOrder(joined, |faults|)
    requires forall j: nat :: j in got <==> (code != 0 && PlaceProves(names, lines, messages, faults, order, j))
    ensures (forall j :: j in got ==> j < |order|)
    ensures (set j | j in got :: order[j]) == Named(names, lines, code, false, messages, faults, joined)
  {
    var named := Named(names, lines, code, false, messages, faults, joined);
    forall j | j in got ensures j < |order| && order[j] in named {
      var i :| Attribution.LineProves(names, lines, Pick(messages, order), FilesOfEach(Pick(faults, order)), j, i);
      assert order[j] in order;
      PickedProves(names, lines, messages, faults, joined, order, j, i);
    }
    forall p | p in named ensures p in (set j | j in got :: order[j]) {
      var i :| SoleLine(names, lines, messages, faults, joined, p, i);
      assert p in order;
      var j: nat :| j < |order| && order[j] == p;
      PickedProves(names, lines, messages, faults, joined, order, j, i);
    }
  }

  /** The places of the joined list, split in two, split the joined positions in two. */
  lemma SplitJoined(joined: set<nat>, order: seq<nat>, n: nat, got: set<nat>, alone: set<nat>)
    requires order == InOrder(joined, n) && forall p :: p in joined ==> p < n
    requires got !! alone && forall i: nat :: i < |order| <==> i in got + alone
    ensures (forall i :: i in got ==> i < |order|) && (forall i :: i in alone ==> i < |order|)
    ensures (set i | i in got :: order[i]) !! (set i | i in alone :: order[i])
    ensures (set i | i in got :: order[i]) + (set i | i in alone :: order[i]) == joined
  {
    forall i: nat | i in got || i in alone ensures i < |order| && order[i] in joined {
      assert i in got + alone;
      assert order[i] in order;
    }
    forall p | p in joined
      ensures p in (set i | i in got :: order[i]) + (set i | i in alone :: order[i])
    {
      assert p in order;
      var i: nat :| i < |order| && order[i] == p;
      assert i in got + alone;
    }
  }

  /** What `script_batches` puts in one group seeds different files, so its entries can be seeded
      together. */
  lemma GroupSeedsApart(selected: seq<Registered>, c: Command, n: nat, g: Group)
    requires GroupOk(selected, c, n, g)
    ensures forall k :: 0 <= k < |g.members| ==> g.members[k] < |selected|
    ensures Disjoint(seq(|g.members|, k requires 0 <= k < |g.members| => selected[g.members[k]].transforms))
  {
    forall k | 0 <= k < |g.members| ensures g.members[k] < |selected| {
      assert Eligible(selected, c, g.members[k]);
    }
    var faults := seq(|g.members|, k requires 0 <= k < |g.members| => selected[g.members[k]].transforms);
    forall i, j | 0 <= i < j < |faults| ensures Files(faults[i]) !! Files(faults[j]) {
      assert FilesOf(selected, g.members[i]) !! FilesOf(selected, g.members[j]);
    }
  }
}
