/** How `cmd_fire` of tools/check-guards-fire.py deals the selected faults onto the workers'
    queues, whole batches in their first entry's place, and what a batch's run leaves. */
module FaultPhase {
  import opened Prelude
  import opened Boards
  import opened Seeding

  datatype Kind = TestFailed | ExitNonzero | CompileError | LintError

  /** A registered fault, as batching sees it. `lintCommand` is what `batchable`
      asks of its command, a single clippy call that leaves the message format open; `scriptCommand` is everything
      `script_batchable` asks beside the entry's kind (its `expect`) and transforms. */
  datatype Registered = Registered(
    command: Command,
    kind: Kind,
    transforms: Fault,
    lintCommand: bool,
    scriptCommand: bool,
    bindings: bool)

  predicate Batchable(f: Registered) {
    f.kind.LintError? && f.transforms != [] && f.lintCommand
  }

  predicate ScriptBatchable(f: Registered) {
    f.kind.ExitNonzero? && f.transforms != [] && f.scriptCommand
  }

  // ── lint batches ───────────────────────────────────────────────────────────

  /** The batchable entries of `command` among the first `n`. */
  function LintMembers(selected: seq<Registered>, command: Command, n: nat): (r: seq<nat>)
    requires n <= |selected|
    ensures Increasing(r)
    ensures forall i: nat :: i in r <==> i < n && Batchable(selected[i]) && selected[i].command == command
  {
    if n == 0 then []
    else
      var rest := LintMembers(selected, command, n - 1);
      assert forall k :: 0 <= k < |rest| ==> rest[k] in rest;
      if Batchable(selected[n - 1]) && selected[n - 1].command == command then rest + [n - 1] else rest
  }

  /** `groups` holds the batchable entries of each command among the first `n`, and no command
      without one. */
  ghost predicate Gathered(selected: seq<Registered>, groups: map<Command, seq<nat>>, n: nat)
    requires n <= |selected|
  {
    forall c :: LintMembers(selected, c, n) == if c in groups then groups[c] else []
  }

  lemma GatherOne(selected: seq<Registered>, groups: map<Command, seq<nat>>, i: nat)
    requires i < |selected| && Gathered(selected, groups, i)
    ensures Batchable(selected[i]) ==>
      var c := selected[i].command;
      Gathered(selected, groups[c := (if c in groups then groups[c] else []) + [i]], i + 1)
    ensures !Batchable(selected[i]) ==> Gathered(selected, groups, i + 1)
  {
    forall c
      ensures LintMembers(selected, c, i + 1) ==
              LintMembers(selected, c, i) + if Batchable(selected[i]) && selected[i].command == c then [i] else []
    {
    }
  }

  method LintBatches(selected: seq<Registered>) returns (batches: map<Command, seq<nat>>)
    ensures forall c :: c in batches <==> |LintMembers(selected, c, |selected|)| > 1
    ensures forall c :: c in batches ==> batches[c] == LintMembers(selected, c, |selected|)
  {
    var groups: map<Command, seq<nat>> := map[];
    for i := 0 to |selected|
      invariant Gathered(selected, groups, i)
    {
      GatherOne(selected, groups, i);
      if Batchable(selected[i]) {
        var c := selected[i].command;
        groups := groups[c := (if c in groups then groups[c] else []) + [i]];
      }
    }
    batches := map c | c in groups && |groups[c]| > 1 :: groups[c];
  }

  // ── script batches ─────────────────────────────────────────────────────────

  datatype Group = Group(members: seq<nat>, taken: set<Path>)

  function FilesOf(selected: seq<Registered>, i: nat): set<Path>
    requires i < |selected|
  {
    Files(selected[i].transforms)
  }

  predicate Eligible(selected: seq<Registered>, c: Command, i: nat) {
    i < |selected| && ScriptBatchable(selected[i]) && selected[i].command == c
  }

  /** One group: script entries of one command, no two seeding one file; `taken` is what they
      seed. */
  ghost predicate GroupOk(selected: seq<Registered>, c: Command, n: nat, g: Group) {
    && g.members != [] && Increasing(g.members)
    && (forall k :: 0 <= k < |g.members| ==> g.members[k] < n && Eligible(selected, c, g.members[k]))
    && Apart(selected, g.members)
    && g.taken == Taken(selected, g.members)
  }

  /** No two members seed one file. */
  ghost predicate Apart(selected: seq<Registered>, members: seq<nat>)
    requires forall k :: 0 <= k < |members| ==> members[k] < |selected|
  {
    forall j, k :: 0 <= j < k < |members| ==> FilesOf(selected, members[j]) !! FilesOf(selected, members[k])
  }

  /** Every file the members seed. */
  ghost function Taken(selected: seq<Registered>, members: seq<nat>): (r: set<Path>)
    requires forall k :: 0 <= k < |members| ==> members[k] < |selected|
    ensures forall k :: 0 <= k < |members| ==> FilesOf(selected, members[k]) <= r
  {
    if members == [] then {}
    else
      var front := members[..|members| - 1];
      Taken(selected, front) + FilesOf(selected, members[|members| - 1])
  }

  /** Every member of `later` seeds a file that `earlier` seeds already. */
  ghost predicate ShutOut(selected: seq<Registered>, earlier: Group, later: Group) {
    forall k :: 0 <= k < |later.members| ==>
                  later.members[k] < |selected| && !(FilesOf(selected, later.members[k]) !! earlier.taken)
  }

  ghost predicate NoneInBoth(g: Group, h: Group) {
    forall i :: i in g.members ==> i !in h.members
  }

  ghost predicate Placed(groups: seq<Group>, i: nat) {
    exists g :: 0 <= g < |groups| && i in groups[g].members
  }

  /** The groups of one command after the first `n` entries: each ok, no entry in two, none left
      out, and each entry in the first group that would take it. */
  ghost predicate GroupsOk(selected: seq<Registered>, c: Command, n: nat, groups: seq<Group>) {
    && (forall g :: 0 <= g < |groups| ==> GroupOk(selected, c, n, groups[g]))
    && (forall g, h :: 0 <= g < h < |groups| ==> NoneInBoth(groups[g], groups[h]))
    && (forall g, h :: 0 <= g < h < |groups| ==> ShutOut(selected, groups[g], groups[h]))
    && (forall i: nat :: i < n && Eligible(selected, c, i) ==> Placed(groups, i))
  }

  /** The first group that seeds none of `mine`. */
  method FirstFree(groups: seq<Group>, mine: set<Path>) returns (at: nat)
    ensures at <= |groups| && (at < |groups| ==> groups[at].taken !! mine)
    ensures forall g :: 0 <= g < at ==> !(groups[g].taken !! mine)
  {
    at := 0;
    while at < |groups| && !(groups[at].taken !! mine)
      invariant at <= |groups|
      invariant forall g :: 0 <= g < at ==> !(groups[g].taken !! mine)
    {
      at := at + 1;
    }
  }

  /** One more entry: into the first group with no file of its own, or a group of its own. */
  method Place(selected: seq<Registered>, c: Command, i: nat, groups: seq<Group>) returns (placed: seq<Group>)
    requires GroupsOk(selected, c, i, groups) && Eligible(selected, c, i)
    ensures GroupsOk(selected, c, i + 1, placed)
  {
    var mine := FilesOf(selected, i);
    var at := FirstFree(groups, mine);
    if at < |groups| {
      JoinKeepsOk(selected, c, i, groups, at);
      placed := groups[at := Join(selected, groups[at], i)];
    } else {
      OpenKeepsOk(selected, c, i, groups);
      placed := groups + [Group([i], mine)];
    }
  }

  function Join(selected: seq<Registered>, g: Group, i: nat): Group
    requires i < |selected|
  {
    Group(g.members + [i], g.taken + FilesOf(selected, i))
  }

  lemma JoinedOk(selected: seq<Registered>, c: Command, i: nat, g: Group)
    requires Eligible(selected, c, i) && GroupOk(selected, c, i, g) && g.taken !! FilesOf(selected, i)
    ensures GroupOk(selected, c, i + 1, Join(selected, g, i))
  {
    var members := g.members + [i];
    assert members[..|members| - 1] == g.members;
  }

  lemma JoinKeepsPairs(selected: seq<Registered>, c: Command, i: nat, g: Group, h: Group)
    requires Eligible(selected, c, i) && GroupOk(selected, c, i, g) && GroupOk(selected, c, i, h)
    requires NoneInBoth(g, h) && ShutOut(selected, g, h)
    ensures NoneInBoth(Join(selected, g, i), h) && ShutOut(selected, Join(selected, g, i), h)
    ensures NoneInBoth(g, Join(selected, h, i))
    ensures !(FilesOf(selected, i) !! g.taken) ==> ShutOut(selected, g, Join(selected, h, i))
  {
  }

  lemma JoinKeepsPlaced(selected: seq<Registered>, i: nat, groups: seq<Group>, at: nat, j: nat)
    requires i < |selected| && at < |groups| && (Placed(groups, j) || j == i)
    ensures Placed(groups[at := Join(selected, groups[at], i)], j)
  {
    var placed := groups[at := Join(selected, groups[at], i)];
    if Placed(groups, j) {
      var g :| 0 <= g < |groups| && j in groups[g].members;
      assert j in placed[g].members;
    } else {
      assert j in placed[at].members;
    }
  }

  lemma JoinKeepsOk(selected: seq<Registered>, c: Command, i: nat, groups: seq<Group>, at: nat)
    requires GroupsOk(selected, c, i, groups) && Eligible(selected, c, i) && at < |groups|
    requires groups[at].taken !! FilesOf(selected, i)
    requires forall g :: 0 <= g < at ==> !(groups[g].taken !! FilesOf(selected, i))
    ensures GroupsOk(selected, c, i + 1, groups[at := Join(selected, groups[at], i)])
  {
    var placed := groups[at := Join(selected, groups[at], i)];
    JoinedOk(selected, c, i, groups[at]);
    forall g | 0 <= g < |placed| ensures GroupOk(selected, c, i + 1, placed[g]) {
      assert GroupOk(selected, c, i, groups[g]);
    }
    forall g, h | 0 <= g < h < |placed|
      ensures NoneInBoth(placed[g], placed[h]) && ShutOut(selected, placed[g], placed[h])
    {
      JoinKeepsPairs(selected, c, i, groups[g], groups[h]);
    }
    forall j: nat | j < i + 1 && Eligible(selected, c, j) ensures Placed(placed, j) {
      JoinKeepsPlaced(selected, i, groups, at, j);
    }
  }

  lemma OpenKeepsOk(selected: seq<Registered>, c: Command, i: nat, groups: seq<Group>)
    requires GroupsOk(selected, c, i, groups) && Eligible(selected, c, i)
    requires forall g :: 0 <= g < |groups| ==> !(groups[g].taken !! FilesOf(selected, i))
    ensures GroupsOk(selected, c, i + 1, groups + [Group([i], FilesOf(selected, i))])
  {
    var alone := Group([i], FilesOf(selected, i));
    var placed := groups + [alone];
    assert [i][..0] == [];
    forall g | 0 <= g < |placed| ensures GroupOk(selected, c, i + 1, placed[g]) {
      assert g < |groups| ==> GroupOk(selected, c, i, groups[g]);
    }
    forall g, h | 0 <= g < h < |placed|
      ensures NoneInBoth(placed[g], placed[h]) && ShutOut(selected, placed[g], placed[h])
    {
      assert GroupOk(selected, c, i, groups[g]);
      if h < |groups| {
        assert NoneInBoth(groups[g], groups[h]) && ShutOut(selected, groups[g], groups[h]);
      }
    }
    forall j: nat | j < i + 1 && Eligible(selected, c, j) ensures Placed(placed, j) {
      if j == i {
        assert i in placed[|groups|].members;
      } else {
        assert Placed(groups, j);
        var g :| 0 <= g < |groups| && j in groups[g].members;
        assert j in placed[g].members;
      }
    }
  }

  ghost predicate Grouped(selected: seq<Registered>, n: nat, groups: map<Command, seq<Group>>) {
    && (forall c :: c in groups ==> GroupsOk(selected, c, n, groups[c]))
    && forall i: nat :: i < n && i < |selected| && ScriptBatchable(selected[i]) ==> selected[i].command in groups
  }

  /** A command's groups once every entry has been placed, groups of one included. */
  method ScriptGroups(selected: seq<Registered>) returns (groups: map<Command, seq<Group>>)
    ensures Grouped(selected, |selected|, groups)
  {
    groups := map[];
    for i := 0 to |selected|
      invariant Grouped(selected, i, groups)
    {
      ghost var was := groups;
      if ScriptBatchable(selected[i]) {
        var c := selected[i].command;
        var slots := if c in groups then groups[c] else [];
        assert GroupsOk(selected, c, i, slots);
        var placed := Place(selected, c, i, slots);
        groups := groups[c := placed];
      }
      forall c | c in groups ensures GroupsOk(selected, c, i + 1, groups[c]) {
        if !Eligible(selected, c, i) {
          GroupsUnaffected(selected, c, i, was[c]);
        }
      }
    }
  }

  lemma GroupsUnaffected(selected: seq<Registered>, c: Command, i: nat, groups: seq<Group>)
    requires GroupsOk(selected, c, i, groups) && !Eligible(selected, c, i)
    ensures GroupsOk(selected, c, i + 1, groups)
  {
    forall g | 0 <= g < |groups| ensures GroupOk(selected, c, i + 1, groups[g]) {
      assert GroupOk(selected, c, i, groups[g]);
    }
  }

  /** `batches` holds exactly the groups of two or more, under their command and place. */
  ghost predicate Keeps(groups: map<Command, seq<Group>>, batches: map<(Command, nat), seq<nat>>) {
    && (forall k :: k in batches ==>
                      && k.0 in groups && k.1 < |groups[k.0]| && |groups[k.0][k.1].members| > 1
                      && batches[k] == groups[k.0][k.1].members)
    && forall c, g: nat :: c in groups && g < |groups[c]| && |groups[c][g].members| > 1 ==> (c, g) in batches
  }

  /** `script_batches`: the groups of two or more, keyed by command and place. */
  method ScriptBatches(selected: seq<Registered>)
    returns (batches: map<(Command, nat), seq<nat>>, groups: map<Command, seq<Group>>)
    ensures Grouped(selected, |selected|, groups) && Keeps(groups, batches)
  {
    groups := ScriptGroups(selected);
    batches := map c, g: nat | c in groups && 0 <= g < |groups[c]| && |groups[c][g].members| > 1 ::
                 (c, g) := groups[c][g].members;
  }
}
