/** The fault phase's queues, from which every run ends with one verdict for each fault. */
module FaultQueues {
  import opened Prelude
  import opened Boards
  import opened BoardRuns
  import opened BoardInvariant
  import opened BoardTheorems
  import opened FaultPhase
  import BoardObject

  // ── every entry has one home ───────────────────────────────────────────────

  ghost predicate LintOk(selected: seq<Registered>, lint: map<Command, seq<nat>>) {
    forall c :: c in lint ==> lint[c] == LintMembers(selected, c, |selected|) && |lint[c]| > 1
  }

  ghost predicate ScriptOk(selected: seq<Registered>, script: map<(Command, nat), seq<nat>>) {
    && (forall k :: k in script ==> |script[k]| > 1 && Increasing(script[k]))
    && (forall k, i :: k in script && i in script[k] ==> Eligible(selected, k.0, i))
    && (forall k, l, i :: k in script && l in script && i in script[k] && i in script[l] ==> k == l)
  }

  lemma KeptMembers(selected: seq<Registered>, groups: map<Command, seq<Group>>, script: map<(Command, nat), seq<nat>>,
                    k: (Command, nat))
    requires Grouped(selected, |selected|, groups) && Keeps(groups, script) && k in script
    ensures |script[k]| > 1 && Increasing(script[k])
    ensures forall i :: i in script[k] ==> Eligible(selected, k.0, i)
  {
    assert GroupOk(selected, k.0, |selected|, groups[k.0][k.1]);
  }

  lemma InOneGroup(selected: seq<Registered>, c: Command, n: nat, groups: seq<Group>, g: nat, h: nat, i: nat)
    requires GroupsOk(selected, c, n, groups) && g < |groups| && h < |groups|
    requires i in groups[g].members && i in groups[h].members
    ensures g == h
  {
    var (first, second) := (if g < h then g else h, if g < h then h else g);
    assert first != second ==> NoneInBoth(groups[first], groups[second]);
  }

  lemma KeptApart(selected: seq<Registered>, groups: map<Command, seq<Group>>, script: map<(Command, nat), seq<nat>>,
                  k: (Command, nat), l: (Command, nat), i: nat)
    requires Grouped(selected, |selected|, groups) && Keeps(groups, script)
    requires k in script && l in script && i in script[k] && i in script[l]
    ensures k == l
  {
    KeptMembers(selected, groups, script, k);
    KeptMembers(selected, groups, script, l);
    InOneGroup(selected, k.0, |selected|, groups[k.0], k.1, l.1, i);
  }

  /** What `script_batches` answers puts no entry in two batches. */
  lemma KeptGroupsOk(selected: seq<Registered>, groups: map<Command, seq<Group>>, script: map<(Command, nat), seq<nat>>)
    requires Grouped(selected, |selected|, groups) && Keeps(groups, script)
    ensures ScriptOk(selected, script)
  {
    forall k | k in script
      ensures |script[k]| > 1 && Increasing(script[k])
      ensures forall i :: i in script[k] ==> Eligible(selected, k.0, i)
    {
      KeptMembers(selected, groups, script, k);
    }
    forall k, l, i | k in script && l in script && i in script[k] && i in script[l] ensures k == l {
      KeptApart(selected, groups, script, k, l, i);
    }
  }

  /** `cfg` describes `selected` and its batches. */
  ghost predicate Describes(cfg: Config, selected: seq<Registered>) {
    && |cfg.commandOf| == |selected|
    && (forall i :: 0 <= i < |selected| ==> cfg.commandOf[i] == selected[i].command)
    && LintOk(selected, cfg.lint) && ScriptOk(selected, cfg.script)
  }

  predicate InScript(script: map<(Command, nat), seq<nat>>, i: nat) {
    exists k :: k in script && i in script[k]
  }

  /** The key of the task that covers entry `i`: its batch's, or its own. */
  ghost function Home(cfg: Config, selected: seq<Registered>, i: nat): (key: Key)
    requires Describes(cfg, selected) && i < |selected|
    ensures Counted(key)
  {
    if Batchable(selected[i]) && selected[i].command in cfg.lint then LintBatch(selected[i].command)
    else if InScript(cfg.script, i) then
      var k :| k in cfg.script && i in cfg.script[k]; ScriptBatch(k.0, k.1)
    else Fault(i)
  }

  /** The entry whose place the task takes. */
  ghost function Lead(cfg: Config, key: Key): nat {
    if key.Fault? then key.index else if Members(cfg, key) == [] then 0 else Members(cfg, key)[0]
  }

  ghost predicate RealBatch(cfg: Config, key: Key) {
    match key
    case LintBatch(c) => c in cfg.lint
    case ScriptBatch(c, g) => (c, g) in cfg.script
    case _ => false
  }

  lemma BatchMembers(cfg: Config, selected: seq<Registered>, key: Key)
    requires Describes(cfg, selected) && RealBatch(cfg, key)
    ensures NoDuplicates(Members(cfg, key)) && |Members(cfg, key)| > 1
    ensures forall m :: m in Members(cfg, key) ==> m < |selected|
    ensures Lead(cfg, key) in Members(cfg, key)
  {
    match key
    case LintBatch(c) => assert Members(cfg, key) == LintMembers(selected, c, |selected|);
    case ScriptBatch(c, g) => assert Members(cfg, key) == cfg.script[(c, g)];
  }

  /** A batch is home to its members and no one else. */
  lemma HomeOfMembers(cfg: Config, selected: seq<Registered>, key: Key, i: nat)
    requires Describes(cfg, selected) && RealBatch(cfg, key) && i < |selected|
    ensures i in Members(cfg, key) <==> Home(cfg, selected, i) == key
    ensures NoDuplicates(Members(cfg, key)) && |Members(cfg, key)| > 1
  {
    BatchMembers(cfg, selected, key);
    var members := Members(cfg, key);
    match key
    case LintBatch(c) =>
      assert members == LintMembers(selected, c, |selected|);
    case ScriptBatch(c, g) =>
      assert members == cfg.script[(c, g)];
      if i in members {
        assert InScript(cfg.script, i);
      }
  }

  lemma HomeIsReal(cfg: Config, selected: seq<Registered>, i: nat)
    requires Describes(cfg, selected) && i < |selected|
    ensures var key := Home(cfg, selected, i);
            key == Fault(i) || (RealBatch(cfg, key) && i in Members(cfg, key))
    ensures Lead(cfg, Home(cfg, selected, i)) < |selected|
    ensures Home(cfg, selected, Lead(cfg, Home(cfg, selected, i))) == Home(cfg, selected, i)
  {
    var key := Home(cfg, selected, i);
    if key != Fault(i) {
      HomeOfMembers(cfg, selected, key, i);
      BatchMembers(cfg, selected, key);
      HomeOfMembers(cfg, selected, key, Lead(cfg, key));
    }
  }

  // ── dealing them out ───────────────────────────────────────────────────────

  /** The task queued in entry `i`'s place, if any: its own, or the batch it leads. */
  ghost function TaskAt(cfg: Config, selected: seq<Registered>, i: nat): Option<Key>
    requires Describes(cfg, selected)
  {
    if i < |selected| && Lead(cfg, Home(cfg, selected, i)) == i then Some(Home(cfg, selected, i)) else None
  }

  ghost function LeavesKey(cfg: Config, key: Key, t: Option<Key>): nat {
    match t
    case None => 0
    case Some(k) => Leaves(cfg, key, Task(k, false, None))
  }

  ghost function PlacePending(cfg: Config, selected: seq<Registered>, key: Key): nat -> nat
    requires Describes(cfg, selected)
  {
    (i: nat) => LeavesKey(cfg, key, TaskAt(cfg, selected, i))
  }

  /** The results filed under fault `j` come from the task of `j`'s home and no other. */
  lemma OnlyHomePuts(cfg: Config, selected: seq<Registered>, i: nat, j: nat)
    requires Describes(cfg, selected) && i < |selected| && j < |selected|
    ensures LeavesKey(cfg, Fault(j), TaskAt(cfg, selected, i)) ==
            if i == Lead(cfg, Home(cfg, selected, j)) then 1 else 0
  {
    HomeIsReal(cfg, selected, i);
    HomeIsReal(cfg, selected, j);
    var home := Home(cfg, selected, i);
    if Lead(cfg, home) == i && home.Fault? {
      assert home == Fault(i);
    } else if Lead(cfg, home) == i {
      HomeOfMembers(cfg, selected, home, j);
      var members := Members(cfg, home);
      OverMap(members, members, FaultIs(Fault(j)), Is(j));
      OnceInDistinct(members, j);
    }
  }

  lemma OnlyLeadPuts(cfg: Config, selected: seq<Registered>, key: Key, i: nat)
    requires Describes(cfg, selected) && RealBatch(cfg, key) && i < |selected|
    ensures LeavesKey(cfg, key, TaskAt(cfg, selected, i)) == if i == Lead(cfg, key) then 1 else 0
  {
    HomeIsReal(cfg, selected, i);
    var home := Home(cfg, selected, i);
    HomeOfMembers(cfg, selected, key, i);
    BatchMembers(cfg, selected, key);
    HomeOfMembers(cfg, selected, key, Lead(cfg, key));
    OverZero(Members(cfg, home), FaultIs(key));
  }

  lemma {:induction false} OverOne(n: nat, f: nat -> nat, i: nat)
    requires i < n && f(i) == 1 && forall j :: 0 <= j < n && j != i ==> f(j) == 0
    ensures Over(Range(n), f) == 1
  {
    OverSplit(Range(n), i, f);
    OverZero(Range(n)[..i], f);
    OverZero(Range(n)[i + 1..], f);
  }

  /** Each fault, and each batch, is counted once over all the places. */
  lemma EachOnce(cfg: Config, selected: seq<Registered>, key: Key)
    requires Describes(cfg, selected)
    requires (key.Fault? && key.index < |selected|) || RealBatch(cfg, key)
    ensures Over(Range(|selected|), PlacePending(cfg, selected, key)) == 1
  {
    var f := PlacePending(cfg, selected, key);
    if key.Fault? {
      HomeIsReal(cfg, selected, key.index);
      forall i: nat | i < |selected|
        ensures f(i) == if i == Lead(cfg, Home(cfg, selected, key.index)) then 1 else 0
      {
        OnlyHomePuts(cfg, selected, i, key.index);
      }
      OverOne(|selected|, f, Lead(cfg, Home(cfg, selected, key.index)));
    } else {
      BatchMembers(cfg, selected, key);
      forall i: nat | i < |selected| ensures f(i) == if i == Lead(cfg, key) then 1 else 0 {
        OnlyLeadPuts(cfg, selected, key, i);
      }
      OverOne(|selected|, f, Lead(cfg, key));
    }
  }

  /** Whether entry `i` is in some batch, and the script batch it heads. */
  predicate InBatch(selected: seq<Registered>, lint: map<Command, seq<nat>>, script: map<(Command, nat), seq<nat>>,
                    i: nat)
    requires i < |selected|
  {
    (exists c :: c in lint && i in lint[c]) || InScript(script, i)
  }

  ghost predicate QueuesFor(cfg: Config, selected: seq<Registered>, queues: seq<seq<Task>>, n: nat)
    requires Describes(cfg, selected) && n <= |selected|
  {
    && (forall w :: 0 <= w < |queues| ==> AllSeed(cfg, queues[w]))
    && forall key :: Counted(key) ==>
                       Over(queues, QueuePending(cfg, key)) == Over(Range(n), PlacePending(cfg, selected, key))
  }

  lemma Append(cfg: Config, selected: seq<Registered>, queues: seq<seq<Task>>, n: nat, w: nat, task: Task)
    requires Describes(cfg, selected) && n < |selected| && w < |queues|
    requires QueuesFor(cfg, selected, queues, n)
    requires Seeds(cfg, task) && TaskAt(cfg, selected, n) == Some(task.key)
    ensures QueuesFor(cfg, selected, queues[w := queues[w] + [task]], n + 1)
  {
    var queues' := queues[w := queues[w] + [task]];
    forall key | Counted(key)
      ensures Over(queues', QueuePending(cfg, key)) == Over(Range(n + 1), PlacePending(cfg, selected, key))
    {
      OverConcat(queues[w], [task], Pending(cfg, key));
      OverUpdate(queues, w, queues[w] + [task], QueuePending(cfg, key));
      OnePlaceMore(cfg, selected, key, n);
    }
  }

  lemma OnePlaceMore(cfg: Config, selected: seq<Registered>, key: Key, n: nat)
    requires Describes(cfg, selected)
    ensures Over(Range(n + 1), PlacePending(cfg, selected, key)) ==
            Over(Range(n), PlacePending(cfg, selected, key)) + PlacePending(cfg, selected, key)(n)
  {
    assert Range(n + 1) == Range(n) + [n];
    OverConcat(Range(n), [n], PlacePending(cfg, selected, key));
  }

  lemma Skip(cfg: Config, selected: seq<Registered>, queues: seq<seq<Task>>, n: nat)
    requires Describes(cfg, selected) && n < |selected|
    requires QueuesFor(cfg, selected, queues, n) && TaskAt(cfg, selected, n) == None
    ensures QueuesFor(cfg, selected, queues, n + 1)
  {
    forall key | Counted(key)
      ensures Over(queues, QueuePending(cfg, key)) == Over(Range(n + 1), PlacePending(cfg, selected, key))
    {
      OnePlaceMore(cfg, selected, key, n);
    }
  }

  lemma NoneQueued(cfg: Config, selected: seq<Registered>, queues: seq<seq<Task>>)
    requires Describes(cfg, selected) && forall w :: 0 <= w < |queues| ==> queues[w] == []
    ensures QueuesFor(cfg, selected, queues, 0)
  {
    forall key ensures Over(queues, QueuePending(cfg, key)) == 0 {
      OverZero(queues, QueuePending(cfg, key));
    }
  }

  ghost predicate Owners(selected: seq<Registered>, owner: map<Command, nat>, jobs: nat) {
    forall i :: 0 <= i < |selected| ==> selected[i].command in owner && owner[selected[i].command] < jobs
  }

  /** The places, among the first `n`, whose task goes to worker `w`: it ran the entry's command clean. */
  ghost function PlacesOf(cfg: Config, selected: seq<Registered>, owner: map<Command, nat>, w: nat, n: nat)
    : (r: seq<nat>)
    requires Describes(cfg, selected) && n <= |selected|
    ensures Increasing(r)
    ensures forall i: nat :: i in r <==>
              (i < n && TaskAt(cfg, selected, i).Some? && selected[i].command in owner
               && owner[selected[i].command] == w)
  {
    if n == 0 then []
    else
      var rest := PlacesOf(cfg, selected, owner, w, n - 1);
      assert forall k :: 0 <= k < |rest| ==> rest[k] in rest;
      var c := selected[n - 1].command;
      if TaskAt(cfg, selected, n - 1).Some? && c in owner && owner[c] == w then rest + [n - 1] else rest
  }

  /** The task in a place: a binding's is pinned if such are, a script batch's never is. */
  ghost function TaskOf(cfg: Config, selected: seq<Registered>, pin: bool, i: nat): Task
    requires Describes(cfg, selected) && i < |selected| && TaskAt(cfg, selected, i).Some?
  {
    var key := TaskAt(cfg, selected, i).value;
    Task(key, pin && selected[i].bindings && !key.ScriptBatch?, Some(cfg.buildOf(selected[i].command)))
  }

  /** Each worker's queue has the tasks of its own places, in the registry's order. */
  ghost predicate DealtTo(cfg: Config, selected: seq<Registered>, owner: map<Command, nat>, pin: bool,
                          queues: seq<seq<Task>>, n: nat)
    requires Describes(cfg, selected) && n <= |selected|
  {
    forall w :: 0 <= w < |queues| ==>
                  Holds(cfg, selected, pin, queues[w], PlacesOf(cfg, selected, owner, w, n))
  }

  ghost predicate Holds(cfg: Config, selected: seq<Registered>, pin: bool, queue: seq<Task>, places: seq<nat>)
    requires Describes(cfg, selected)
  {
    && |queue| == |places|
    && forall k :: 0 <= k < |queue| ==>
                     && places[k] < |selected| && TaskAt(cfg, selected, places[k]).Some?
                     && queue[k] == TaskOf(cfg, selected, pin, places[k])
  }

  ghost predicate Deals(cfg: Config, selected: seq<Registered>, owner: map<Command, nat>, pin: bool,
                        queues: seq<seq<Task>>, n: nat)
    requires Describes(cfg, selected) && n <= |selected|
  {
    QueuesFor(cfg, selected, queues, n) && DealtTo(cfg, selected, owner, pin, queues, n)
  }

  /** One task more, onto its owner's queue. */
  lemma DealOne(cfg: Config, selected: seq<Registered>, owner: map<Command, nat>, pin: bool,
                queues: seq<seq<Task>>, n: nat, task: Task)
    requires Describes(cfg, selected) && n < |selected| && Owners(selected, owner, |queues|)
    requires Deals(cfg, selected, owner, pin, queues, n)
    requires Seeds(cfg, task) && TaskAt(cfg, selected, n) == Some(task.key)
    requires task == TaskOf(cfg, selected, pin, n)
    ensures var w := owner[selected[n].command];
            Deals(cfg, selected, owner, pin, queues[w := queues[w] + [task]], n + 1)
  {
    Append(cfg, selected, queues, n, owner[selected[n].command], task);
    DealtOneMore(cfg, selected, owner, pin, queues, n, task);
  }

  lemma HoldsOneMore(cfg: Config, selected: seq<Registered>, pin: bool, queue: seq<Task>, places: seq<nat>, n: nat)
    requires Describes(cfg, selected) && Holds(cfg, selected, pin, queue, places)
    requires n < |selected| && TaskAt(cfg, selected, n).Some?
    ensures Holds(cfg, selected, pin, queue + [TaskOf(cfg, selected, pin, n)], places + [n])
  {
  }

  lemma DealtOneMore(cfg: Config, selected: seq<Registered>, owner: map<Command, nat>, pin: bool,
                     queues: seq<seq<Task>>, n: nat, task: Task)
    requires Describes(cfg, selected) && n < |selected| && Owners(selected, owner, |queues|)
    requires DealtTo(cfg, selected, owner, pin, queues, n)
    requires TaskAt(cfg, selected, n).Some? && task == TaskOf(cfg, selected, pin, n)
    ensures var w := owner[selected[n].command];
            DealtTo(cfg, selected, owner, pin, queues[w := queues[w] + [task]], n + 1)
  {
    var w := owner[selected[n].command];
    var queues' := queues[w := queues[w] + [task]];
    forall u: nat | u < |queues'|
      ensures Holds(cfg, selected, pin, queues'[u], PlacesOf(cfg, selected, owner, u, n + 1))
    {
      assert Holds(cfg, selected, pin, queues[u], PlacesOf(cfg, selected, owner, u, n));
      if u == w {
        HoldsOneMore(cfg, selected, pin, queues[u], PlacesOf(cfg, selected, owner, u, n), n);
      }
    }
  }

  lemma DealNone(cfg: Config, selected: seq<Registered>, owner: map<Command, nat>, pin: bool,
                 queues: seq<seq<Task>>, n: nat)
    requires Describes(cfg, selected) && n < |selected|
    requires Deals(cfg, selected, owner, pin, queues, n) && TaskAt(cfg, selected, n) == None
    ensures Deals(cfg, selected, owner, pin, queues, n + 1)
  {
    Skip(cfg, selected, queues, n);
  }

  /** Queue each fault on the worker that ran its command clean, or its batch in the place of the
      batch's first entry. `heads` names the script batch each first entry heads. */
  method DealFaults(cfg: Config, selected: seq<Registered>, owner: map<Command, nat>, pin: bool, jobs: nat,
                    heads: map<nat, (Command, nat)>)
    returns (queues: seq<seq<Task>>)
    requires Describes(cfg, selected)
    requires Owners(selected, owner, jobs)
    requires forall i :: i in heads <==> exists k :: k in cfg.script && cfg.script[k][0] == i
    requires forall i :: i in heads ==> heads[i] in cfg.script && cfg.script[heads[i]][0] == i
    ensures |queues| == jobs && QueuesFor(cfg, selected, queues, |selected|)
    ensures DealtTo(cfg, selected, owner, pin, queues, |selected|)
  {
    queues := seq(jobs, _ => []);
    NoneQueued(cfg, selected, queues);
    for i := 0 to |selected|
      invariant |queues| == jobs && Deals(cfg, selected, owner, pin, queues, i)
    {
      var task := TaskInPlace(cfg, selected, pin, heads, i);
      if task.Some? {
        var w := owner[selected[i].command];
        DealOne(cfg, selected, owner, pin, queues, i, task.value);
        queues := queues[w := queues[w] + [task.value]];
      } else {
        DealNone(cfg, selected, owner, pin, queues, i);
      }
    }
  }

  method TaskInPlace(cfg: Config, selected: seq<Registered>, pin: bool, heads: map<nat, (Command, nat)>, i: nat)
    returns (task: Option<Task>)
    requires Describes(cfg, selected) && i < |selected|
    requires forall i :: i in heads <==> exists k :: k in cfg.script && cfg.script[k][0] == i
    requires forall i :: i in heads ==> heads[i] in cfg.script && cfg.script[heads[i]][0] == i
    ensures task.None? ==> TaskAt(cfg, selected, i) == None
    ensures task.Some? ==> (TaskAt(cfg, selected, i) == Some(task.value.key) && Seeds(cfg, task.value)
                            && task.value == TaskOf(cfg, selected, pin, i))
  {
    var f := selected[i];
    var (c, build) := (f.command, Some(cfg.buildOf(f.command)));
    HomeIsReal(cfg, selected, i);
    if !InBatch(selected, cfg.lint, cfg.script, i) {
      UnbatchedIsAlone(cfg, selected, i);
      return Some(Task(Fault(i), pin && f.bindings, build));
    }
    if i in heads {
      var key := ScriptBatch(heads[i].0, heads[i].1);
      HomeOfMembers(cfg, selected, key, i);
      BatchSeeds(cfg, selected, Task(key, false, build), c);
      return Some(Task(key, false, build));
    }
    if c in cfg.lint && cfg.lint[c][0] == i {
      var task := Task(LintBatch(c), pin && f.bindings, build);
      HomeOfMembers(cfg, selected, task.key, i);
      BatchSeeds(cfg, selected, task, c);
      return Some(task);
    }
    FollowersWait(cfg, selected, heads, i);
    return None;
  }

  lemma UnbatchedIsAlone(cfg: Config, selected: seq<Registered>, i: nat)
    requires Describes(cfg, selected) && i < |selected| && !InBatch(selected, cfg.lint, cfg.script, i)
    ensures Home(cfg, selected, i) == Fault(i)
  {
    HomeIsReal(cfg, selected, i);
  }

  lemma BatchSeeds(cfg: Config, selected: seq<Registered>, task: Task, c: Command)
    requires Describes(cfg, selected) && RealBatch(cfg, task.key) && task.build == Some(cfg.buildOf(c))
    requires exists i :: 0 <= i < |selected| && selected[i].command == c && i in Members(cfg, task.key)
    ensures Seeds(cfg, task)
  {
    var members := Members(cfg, task.key);
    forall k | 0 <= k < |members|
      ensures members[k] < |cfg.commandOf| && cfg.commandOf[members[k]] == task.key.command
    {
      assert members[k] in members;
      BatchMembers(cfg, selected, task.key);
      HomeOfMembers(cfg, selected, task.key, members[k]);
    }
    var i :| 0 <= i < |selected| && selected[i].command == c && i in members;
    var k :| 0 <= k < |members| && members[k] == i;
    assert cfg.commandOf[members[k]] == task.key.command;
  }

  lemma FollowersWait(cfg: Config, selected: seq<Registered>, heads: map<nat, (Command, nat)>, i: nat)
    requires Describes(cfg, selected) && i < |selected| && InBatch(selected, cfg.lint, cfg.script, i)
    requires forall i :: i in heads <==> exists k :: k in cfg.script && cfg.script[k][0] == i
    requires i !in heads && !(selected[i].command in cfg.lint && cfg.lint[selected[i].command][0] == i)
    ensures TaskAt(cfg, selected, i) == None
  {
    HomeIsReal(cfg, selected, i);
    var home := Home(cfg, selected, i);
    if home == Fault(i) {
      if c :| c in cfg.lint && i in cfg.lint[c] {
        HomeOfMembers(cfg, selected, LintBatch(c), i);
      }
      assert false;
    }
  }

  lemma HomeIgnoresQueues(cfg: Config, selected: seq<Registered>, queues: seq<seq<Task>>, i: nat)
    requires Describes(cfg, selected) && i < |selected|
    ensures Describes(cfg.(queues := queues), selected)
    ensures Home(cfg.(queues := queues), selected, i) == Home(cfg, selected, i)
  {
    var other := cfg.(queues := queues);
    HomeIsReal(cfg, selected, i);
    HomeIsReal(other, selected, i);
    var (home, home') := (Home(cfg, selected, i), Home(other, selected, i));
    assert Members(cfg, home) == Members(other, home) && Members(cfg, home') == Members(other, home');
    if RealBatch(cfg, home) {
      HomeOfMembers(other, selected, home, i);
    } else if RealBatch(other, home') {
      HomeOfMembers(cfg, selected, home', i);
    }
  }

  lemma SeedsIgnoreQueues(cfg: Config, queue: seq<Task>, queues: seq<seq<Task>>)
    requires AllSeed(cfg, queue)
    ensures AllSeed(cfg.(queues := queues), queue)
  {
    forall i | 0 <= i < |queue| ensures Seeds(cfg.(queues := queues), queue[i]) {
      assert Seeds(cfg, queue[i]);
      assert Members(cfg.(queues := queues), queue[i].key) == Members(cfg, queue[i].key);
    }
  }

  lemma PlacesIgnoreQueues(cfg: Config, selected: seq<Registered>, queues: seq<seq<Task>>)
    requires Describes(cfg, selected) && QueuesFor(cfg, selected, queues, |selected|)
    ensures Describes(cfg.(queues := queues), selected)
    ensures QueuesFor(cfg.(queues := queues), selected, queues, |selected|)
  {
    var other := cfg.(queues := queues);
    forall w | 0 <= w < |queues| ensures AllSeed(other, queues[w]) {
      SeedsIgnoreQueues(cfg, queues[w], queues);
    }
    forall key | Counted(key)
      ensures Over(queues, QueuePending(other, key)) ==
              Over(Range(|selected|), PlacePending(other, selected, key))
    {
      SamePending(cfg, queues, key);
      forall i: nat | i < |selected|
        ensures PlacePending(cfg, selected, key)(i) == PlacePending(other, selected, key)(i)
      {
        HomeIgnoresQueues(cfg, selected, queues, i);
        assert Members(cfg, Home(cfg, selected, i)) == Members(other, Home(cfg, selected, i));
      }
      OverMap(Range(|selected|), Range(|selected|),
              PlacePending(cfg, selected, key), PlacePending(other, selected, key));
    }
  }

  /** The script batch each of these entries is the first of. */
  method HeadsOf(ghost selected: seq<Registered>, script: map<(Command, nat), seq<nat>>)
    returns (heads: map<nat, (Command, nat)>)
    requires ScriptOk(selected, script)
    ensures forall i :: i in heads <==> exists k :: k in script && script[k][0] == i
    ensures forall i :: i in heads ==> heads[i] in script && script[heads[i]][0] == i
  {
    forall k, l | k in script && l in script && script[k][0] == script[l][0] ensures k == l {
      assert script[k][0] in script[k] && script[l][0] in script[l];
    }
    heads := map k | k in script :: script[k][0] := k;
  }

  lemma TaskIgnoresQueues(cfg: Config, selected: seq<Registered>, queues: seq<seq<Task>>, i: nat)
    requires Describes(cfg, selected) && i < |selected|
    ensures Describes(cfg.(queues := queues), selected)
    ensures TaskAt(cfg.(queues := queues), selected, i) == TaskAt(cfg, selected, i)
  {
    HomeIgnoresQueues(cfg, selected, queues, i);
    var key := Home(cfg, selected, i);
    assert Members(cfg.(queues := queues), key) == Members(cfg, key);
  }

  lemma {:induction false} SameListing(a: seq<nat>, b: seq<nat>)
    requires Increasing(a) && Increasing(b) && forall i: nat :: i in a <==> i in b
    ensures a == b
    decreases |a|
  {
    if a == [] && b != [] {
      HasOne(b);
    } else if a != [] {
      var (m, n) := (|a| - 1, |b| - 1);
      assert a[m] in b && b[n] in a;
      assert a[m] == b[n];
      forall i: nat ensures i in a[..m] <==> i in b[..n] {
        assert i in a[..m] <==> i in a && i < a[m];
        assert i in b[..n] <==> i in b && i < b[n];
      }
      SameListing(a[..m], b[..n]);
    }
  }

  lemma HasOne(xs: seq<nat>)
    requires xs != []
    ensures exists i: nat :: i in xs
  {
    assert xs[0] in xs;
  }

  lemma SamePlaces(cfg: Config, other: Config, selected: seq<Registered>, owner: map<Command, nat>, w: nat, n: nat)
    requires Describes(cfg, selected) && Describes(other, selected) && n <= |selected|
    requires forall i: nat :: i < |selected| ==> TaskAt(other, selected, i) == TaskAt(cfg, selected, i)
    ensures PlacesOf(other, selected, owner, w, n) == PlacesOf(cfg, selected, owner, w, n)
  {
    var (a, b) := (PlacesOf(other, selected, owner, w, n), PlacesOf(cfg, selected, owner, w, n));
    forall i: nat ensures i in a <==> i in b {
      assert i < n ==> TaskAt(other, selected, i) == TaskAt(cfg, selected, i);
    }
    SameListing(a, b);
  }

  lemma DealtIgnoresQueues(cfg: Config, selected: seq<Registered>, owner: map<Command, nat>, pin: bool,
                           queues: seq<seq<Task>>)
    requires Describes(cfg, selected) && DealtTo(cfg, selected, owner, pin, queues, |selected|)
    ensures Describes(cfg.(queues := queues), selected)
    ensures DealtTo(cfg.(queues := queues), selected, owner, pin, queues, |selected|)
  {
    var other := cfg.(queues := queues);
    forall i: nat | i < |selected| ensures TaskAt(other, selected, i) == TaskAt(cfg, selected, i) {
      TaskIgnoresQueues(cfg, selected, queues, i);
    }
    SameDealt(cfg, other, selected, owner, pin, queues);
  }

  lemma SameDealt(cfg: Config, other: Config, selected: seq<Registered>, owner: map<Command, nat>, pin: bool,
                  queues: seq<seq<Task>>)
    requires Describes(cfg, selected) && Describes(other, selected) && other.buildOf == cfg.buildOf
    requires forall i: nat :: i < |selected| ==> TaskAt(other, selected, i) == TaskAt(cfg, selected, i)
    requires DealtTo(cfg, selected, owner, pin, queues, |selected|)
    ensures DealtTo(other, selected, owner, pin, queues, |selected|)
  {
    forall w: nat | w < |queues|
      ensures Holds(other, selected, pin, queues[w], PlacesOf(other, selected, owner, w, |selected|))
    {
      SamePlaces(cfg, other, selected, owner, w, |selected|);
      assert Holds(cfg, selected, pin, queues[w], PlacesOf(cfg, selected, owner, w, |selected|));
    }
  }

  /** Batch the selected faults and deal them out, as the fault phase starts. */
  method Prepare(selected: seq<Registered>, buildOf: Command -> Build, owner: map<Command, nat>, pin: bool, jobs: nat)
    returns (cfg: Config)
    requires Owners(selected, owner, jobs)
    ensures Describes(cfg, selected) && |cfg.queues| == jobs
    ensures QueuesFor(cfg, selected, cfg.queues, |selected|)
    ensures DealtTo(cfg, selected, owner, pin, cfg.queues, |selected|)
  {
    var lint := LintBatches(selected);
    var script, groups := ScriptBatches(selected);
    KeptGroupsOk(selected, groups, script);
    var commands := seq(|selected|, i requires 0 <= i < |selected| => selected[i].command);
    cfg := Config(commands, buildOf, lint, script, []);
    var heads := HeadsOf(selected, script);
    var queues := DealFaults(cfg, selected, owner, pin, jobs, heads);
    PlacesIgnoreQueues(cfg, selected, queues);
    DealtIgnoresQueues(cfg, selected, owner, pin, queues);
    cfg := cfg.(queues := queues);
  }

  /** The builds of the commands a worker ran clean, each once. */
  method BuildsOf(buildOf: Command -> Build, touched: seq<Command>) returns (owed: seq<Build>)
    ensures NoDuplicates(owed)
    ensures forall c :: c in touched ==> buildOf(c) in owed
    ensures forall b :: b in owed ==> exists c :: c in touched && buildOf(c) == b
  {
    owed := [];
    for i := 0 to |touched|
      invariant NoDuplicates(owed)
      invariant forall k :: 0 <= k < i ==> buildOf(touched[k]) in owed
      invariant forall b :: b in owed ==> exists c :: c in touched && buildOf(c) == b
    {
      SetDefaultKeepsDistinct(owed, buildOf(touched[i]));
      owed := SetDefault(owed, buildOf(touched[i]));
    }
  }

  /** The board the runs start from: what a worker ran clean it owes, each build once. */
  method StartBoard(cfg: Config, touched: seq<seq<Command>>) returns (board: BoardObject.Board)
    requires |touched| == |cfg.queues|
    requires forall w :: 0 <= w < |touched| ==> NoDuplicates(touched[w])
    requires forall w :: 0 <= w < |cfg.queues| ==> AllSeed(cfg, cfg.queues[w])
    ensures fresh(board)
    ensures Init(cfg, System(board.State(), seq(|touched|, _ => Idle), touched))
  {
    var restores: seq<seq<Build>> := [];
    for w := 0 to |touched|
      invariant |restores| == w
      invariant forall u :: 0 <= u < w ==>
                              && NoDuplicates(restores[u])
                              && (forall c :: c in touched[u] ==> cfg.buildOf(c) in restores[u])
                              && forall b :: b in restores[u] ==> exists c :: c in touched[u] && cfg.buildOf(c) == b
    {
      var owed := BuildsOf(cfg.buildOf, touched[w]);
      restores := restores + [owed];
    }
    board := new BoardObject.Board(cfg.queues, true, Some(restores));
  }

  // ── one verdict for each selected fault ────────────────────────────────────

  lemma SamePending(cfg: Config, queues: seq<seq<Task>>, key: Key)
    ensures Over(queues, QueuePending(cfg, key)) ==
            Over(queues, QueuePending(cfg.(queues := queues), key))
  {
    var other := cfg.(queues := queues);
    forall q: seq<Task> ensures Over(q, Pending(cfg, key)) == Over(q, Pending(other, key)) {
      OverMap(q, q, Pending(cfg, key), Pending(other, key));
    }
    OverMap(queues, queues, QueuePending(cfg, key), QueuePending(other, key));
  }

  /** Whatever the interleaving, a run over the dealt queues that ends without an error leaves
      exactly one result under each selected fault and under each batch. */
  lemma ExactlyOneVerdict(cfg: Config, selected: seq<Registered>, states: seq<System>, steps: seq<Step>, key: Key)
    requires Describes(cfg, selected) && QueuesFor(cfg, selected, cfg.queues, |selected|)
    requires IsRun(cfg, states, steps)
    requires var last := states[|steps|];
             Sized(last) && !last.board.error && forall w :: 0 <= w < |last.phase| ==> last.phase[w].Gone?
    requires (key.Fault? && key.index < |selected|) || RealBatch(cfg, key)
    ensures |Results(states[|steps|].board.done, key)| == 1
  {
    ReachableInv(cfg, states, steps, |steps|);
    CompleteRun(cfg, states[|steps|]);
    EachOnce(cfg, selected, key);
  }

  /** And at no point of any run, failing ones included, are there two. */
  lemma NeverTwoVerdicts(cfg: Config, selected: seq<Registered>, states: seq<System>, steps: seq<Step>, i: nat,
                         key: Key)
    requires Describes(cfg, selected) && QueuesFor(cfg, selected, cfg.queues, |selected|)
    requires IsRun(cfg, states, steps) && i < |states|
    requires (key.Fault? && key.index < |selected|) || RealBatch(cfg, key)
    ensures |Results(states[i].board.done, key)| <= 1
  {
    ReachableInv(cfg, states, steps, i);
    assert Counted(key);
    EachOnce(cfg, selected, key);
  }

  // ── what a batch's run leaves ──────────────────────────────────────────────

  /** The positions of `s` among the first `n`, in order. */
  function InOrder(s: set<nat>, n: nat): (r: seq<nat>)
    ensures forall p: nat :: p in r <==> p in s && p < n
    ensures Increasing(r) && InRange(r, n)
  {
    if n == 0 then []
    else
      var rest := InOrder(s, n - 1);
      assert forall k :: 0 <= k < |rest| ==> rest[k] in rest;
      if n - 1 in s then rest + [n - 1] else rest
  }

  lemma {:induction false} OnceEach(xs: seq<nat>, x: nat)
    requires Increasing(xs)
    ensures multiset(xs)[x] == if x in xs then 1 else 0
  {
    if xs != [] {
      var n := |xs| - 1;
      assert xs == xs[..n] + [xs[n]];
      OnceEach(xs[..n], x);
    }
  }

  /** Of two sets that split the numbers below `n`, the numbers in order do too. */
  lemma InOrderSplits(a: set<nat>, b: set<nat>, n: nat)
    requires a !! b && forall p: nat :: p < n ==> p in a || p in b
    ensures Splits(InOrder(a, n), InOrder(b, n), n)
  {
    var (ps, qs) := (InOrder(a, n), InOrder(b, n));
    forall x: nat ensures multiset(ps + qs)[x] == multiset(Range(n))[x] {
      OnceEach(ps, x);
      OnceEach(qs, x);
      OnceEach(Range(n), x);
      assert x in Range(n) <==> x < n by { if x < n { assert Range(n)[x] == x; } }
    }
  }

  function ProvenEntries(members: seq<nat>, positions: seq<nat>): (r: seq<Entry>)
    requires InRange(positions, |members|)
    ensures |r| == |positions|
    ensures forall i :: 0 <= i < |r| ==> positions[i] < |members| &&
                                         r[i] == Entry(Fault(members[positions[i]]), Verdict(false))
  {
    if positions == [] then []
    else [Entry(Fault(members[positions[0]]), Verdict(false))] + ProvenEntries(members, positions[1..])
  }

  function Fallbacks(task: Task, members: seq<nat>, positions: seq<nat>): (r: seq<Task>)
    requires InRange(positions, |members|)
    ensures |r| == |positions|
    ensures forall i :: 0 <= i < |r| ==> positions[i] < |members| &&
                                         r[i] == Task(Fault(members[positions[i]]), task.pinned, task.build)
  {
    if positions == [] then []
    else [Task(Fault(members[positions[0]]), task.pinned, task.build)] + Fallbacks(task, members, positions[1..])
  }

  /** What a batch puts on the board and queues. */
  datatype Outcome = Outcome(entries: seq<Entry>, follow: seq<Task>)

  /** `run_batch` and `run_script_batch` after the run: of the positions that could be seeded
      together, `joined`, the run proved some if there were two or more; every other member goes
      back on the queue to run alone. */
  function Assemble(task: Task, members: seq<nat>, refused: set<nat>, joined: set<nat>,
                    proven: set<nat>, unproven: set<nat>): Outcome
  {
    var ran := |joined| > 1;
    var ps := InOrder(if ran then proven else {}, |members|);
    var qs := InOrder(refused + (if ran then unproven else joined), |members|);
    Outcome(ProvenEntries(members, ps) + [Entry(task.key, Report(ran, ps, qs))], Fallbacks(task, members, qs))
  }

  /** A batch's report, the last of what it puts. */
  function ReportOf(o: Outcome): Value {
    if o.entries == [] then Report(false, [], []) else o.entries[|o.entries| - 1].value
  }

  /** Just what a batch's report says is handed back: each position it names as proven has its member's
      verdict, that it fired, and each it names as alone has its member queued; both in order. */
  ghost predicate HandsBack(task: Task, members: seq<nat>, o: Outcome) {
    && ReportOf(o).Report?
    && var (ps, qs) := (ReportOf(o).proven, ReportOf(o).alone);
    && Increasing(ps) && Increasing(qs) && InRange(ps, |members|) && InRange(qs, |members|)
    && |o.entries| == |ps| + 1 && o.entries[|ps|].key == task.key
    && (forall i :: 0 <= i < |ps| ==> o.entries[i] == Entry(Fault(members[ps[i]]), Verdict(false)))
    && |o.follow| == |qs|
    && forall i :: 0 <= i < |qs| ==> o.follow[i] == Task(Fault(members[qs[i]]), task.pinned, task.build)
  }

  /** With two joined or more, those the run proves are proven, and the rest and what was refused run
      alone; with fewer, all run alone. */
  lemma AssembleHandsBack(task: Task, members: seq<nat>, refused: set<nat>, joined: set<nat>,
                          proven: set<nat>, unproven: set<nat>)
    requires forall p: nat :: p < |members| <==> p in refused + joined
    requires |joined| > 1 ==> proven + unproven == joined
    ensures var (o, ran) := (Assemble(task, members, refused, joined, proven, unproven), |joined| > 1);
            && HandsBack(task, members, o) && ReportOf(o).ran == ran
            && (forall p: nat :: p in ReportOf(o).proven <==> ran && p in proven)
            && (forall p: nat :: p in ReportOf(o).alone <==> p in refused || p in (if ran then unproven else joined))
  {
    var ran := |joined| > 1;
    var fired := if ran then proven else {};
    var alone := refused + (if ran then unproven else joined);
    forall p: nat | p in refused || p in joined ensures p < |members| {
      assert p in refused + joined;
    }
    HandsBackThese(task, members, ran, InOrder(fired, |members|), InOrder(alone, |members|));
  }

  lemma HandsBackThese(task: Task, members: seq<nat>, ran: bool, ps: seq<nat>, qs: seq<nat>)
    requires Increasing(ps) && Increasing(qs) && InRange(ps, |members|) && InRange(qs, |members|)
    ensures var o := Outcome(ProvenEntries(members, ps) + [Entry(task.key, Report(ran, ps, qs))],
                             Fallbacks(task, members, qs));
            HandsBack(task, members, o) && ReportOf(o) == Report(ran, ps, qs)
  {
  }

  /** Given that the refused and the joined positions partition the batch, and the proven and
      the unproven the joined, a batch's answer is one the board's promises hold for. */
  lemma BatchAnswersWell(cfg: Config, touched: seq<Command>, task: Task,
                         refused: set<nat>, joined: set<nat>, proven: set<nat>, unproven: set<nat>)
    requires Seeds(cfg, task) && IsBatch(task.key)
    requires refused !! joined && proven !! unproven
    requires forall p: nat :: p < |Members(cfg, task.key)| <==> p in refused + joined
    requires |joined| > 1 ==> proven + unproven == joined
    ensures var r := Assemble(task, Members(cfg, task.key), refused, joined, proven, unproven);
            Answers(cfg, touched, task, r.entries, r.follow)
  {
    var members := Members(cfg, task.key);
    var ran := |joined| > 1;
    var fired := if ran then proven else {};
    var alone := refused + (if ran then unproven else joined);
    FiredOrAlone(|members|, ran, refused, joined, proven, unproven);
    var (ps, qs) := (InOrder(fired, |members|), InOrder(alone, |members|));
    InOrderSplits(fired, alone, |members|);
    BatchAnswersInOrder(cfg, task, ps, qs, Report(ran, ps, qs));
  }

  lemma FiredOrAlone(n: nat, ran: bool, refused: set<nat>, joined: set<nat>, proven: set<nat>, unproven: set<nat>)
    requires refused !! joined && proven !! unproven && forall p: nat :: p < n <==> p in refused + joined
    requires ran ==> proven + unproven == joined
    ensures var (fired, alone) := (if ran then proven else {}, refused + (if ran then unproven else joined));
            fired !! alone && forall p: nat :: p < n ==> p in fired || p in alone
  {
    forall p: nat | p < n ensures p in refused || p in joined {
      assert p in refused + joined;
    }
    assert ran ==> forall p :: p in joined <==> p in proven || p in unproven;
  }

  lemma BatchAnswersInOrder(cfg: Config, task: Task, ps: seq<nat>, qs: seq<nat>, report: Value)
    requires var n := |Members(cfg, task.key)|; InRange(ps, n) && InRange(qs, n) && Splits(ps, qs, n)
    ensures var members := Members(cfg, task.key);
            BatchAnswers(cfg, task, ps, qs, ProvenEntries(members, ps) + [Entry(task.key, report)],
                         Fallbacks(task, members, qs))
  {
  }
}
