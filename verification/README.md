# Verified models of the gate tools

This project models the four gate tools under `tools/` whose code holds real algorithms, and
proves what their docstrings promise. `dafny verify dfyconfig.toml` checks all of it.

**The guard runner's fault phase** (`tools/check-guards-fire.py`). `Boards` gives each locked
method of `Board` as a function of the board's whole value, and `BoardObject` is the object the
workers share, each method proved to do what the function says. `BoardRuns` is the state machine:
any number of workers, each locked section one step, a task's answer anything the fault phase's
task functions may answer, and a crash or a stop possible at any point. `BoardInvariant` proves
that every step keeps the invariant and `BoardTheorems` what follows over whole runs: each run
ends, none is stuck, nothing is lost, and each build is restored once by each worker that ran it,
after its last fault anywhere. `FaultPhase` and `FaultQueues` batch the selected faults and deal
them out, so that every run ends with one verdict for each fault, and `BoardVerdicts` shows that
verdict to be what the one task that answered for the fault said.

**Batches.** `Seeding` is what a fault's transforms do to a tree. `LineEdits`, `Batches` and
`BatchText` are the merge of several entries' line edits into one tree, with the lines each wrote,
and `BatchJoins` says who joins it, and why each other entry doesn't, by what their edits change.
`Attribution` reads the run's diagnostics back to entries, and `BatchTasks` puts a whole batch
together and meets the board's side of the bargain.

**The verdict cache.** `VerdictCache` models a command as a reader of the tree that may choose
each question by the answers before it. When `why` keeps a recorded verdict, the re-run asks the
same questions, hears the same answers and ends the same way; `CacheReasons` says exactly when it
keeps one, and `CacheBatches` when all this holds of a verdict recorded from a batch.

**Load balancing and readers.** `Greedy` and `Sharding` are the greedy split with its classical
bounds, for the guard runner and the mutation gate both. `Traces` rejoins split `strace` calls,
`Packages` is the reach of a set of builds in the package graph, `Ratchet` the list that may only
shrink, and `RatchetOrders` exactly which changes of it pass, in the order given and in any order.

**The wire-compatibility check** (`tools/check-schema-compat.py`). `SchemaShapes` and
`SchemaCompare` are the rule and the walk, which is pruned along its own path and still applies
the rule to every pair of definitions a route reaches. `SchemaMeaning` says what a message is and
who reads it, and shows that a walk that finds nothing gives a simulation; `SchemaGate` is the
whole comparison and what an empty answer promises, `SchemaBreaks` what each break says and what
passes without one, and `SchemaEdges` the edges of that promise.

**The mutation gate** (`tools/check-mutmut.py`). `Mutmut` has the counts, the three-way verdict,
every way a stopped run could have ended, and the split into shards.

**Quoted scalars** (`tools/check-agents-md.py`). `Quoted` and `QuotedLines` are the reader of
quoted YAML scalars, against a printer and against any lines that spell one. `FlowFolding` is the
value YAML 1.2.2 gives a scalar of several lines (sections 6.5, 7.3.1 and 7.3.2) and exactly when
the reader gives the same, and `FlowFoldingEdges` has a scalar for each way it can give another.

`Prelude`, `Sorting` and `Texts` hold what these share.

## Where a promise stops

Each of these is a property that does not hold on every input. The lemmas named give the failing
inputs and the condition under which the property does hold.

- The verdict cache compares a record with the paths git lists, not with what is on disk. A file
  deleted without `git rm`, or a path turned from a file into a directory or back, passes the
  checks for presence, and a command that looks there sees the difference
  (`VerdictCache.FalseListingMisleads`): one deleted file is enough for a kept verdict that the
  re-run does not give (`VerdictCache.DeletedFileMisleads`). A kept closure is sound exactly when
  what it rests on is on disk: the paths it found, as the kind they were, the entries of each
  directory it listed, and the tracked files if it lists those (`VerdictCache.SoundIffRestsTrue`).
  All closures are, exactly when every path git still lists is on disk as it was
  (`VerdictCache.SoundIffListingIsTrue`), which a clean checkout gives unless a path turned between
  file and directory (`VerdictCache.CleanListing`).
- A verdict recorded from a batch stands for the batch's run. It is kept soundly when the same
  entries apply or join as then (`CacheBatches.KeptScriptBatch`, `CacheBatches.KeptLintBatch`) and
  none of them edits a lock file that the run's closure reads by package alone. `why` does not check
  this: when a file of another entry that no run read has changed, so that the other entry no longer
  applies, it keeps a verdict that the entry's own run need not give
  (`CacheBatches.LostMemberMisleads`). Unchanged files of every entry are enough for the members to
  be the same (`CacheBatches.MembersKept`).
- A mutation verdict from a stopped base run can be overturned in one case: every base mutant run
  so far was unreached, so the function is taken to have no base count, and some mutants of it are
  still to run. When all that is left is killed (`Mutmut.UnrunCanAllBeKilled`), the full run
  reports more (`Mutmut.OverturnableIsNot`); every other verdict given is final
  (`Mutmut.DecidedIsFinalIff`). The comment in `verdict` takes what counts already settle as
  decided, and does not set this case apart.
- A merged batch file has the lines the plan counted, and each region of it the entry's own lines
  (`BatchText.RegionHoldsInText`), exactly when no entry that leaves its last line without a newline
  is followed there by another entry's lines (`BatchText.TextReadsBack`). Two entries that each add
  such a line to one file do not meet that (`BatchText.OpenLinesRunTogether`), and two faults that
  each put a word after a file's one line are such (`BatchText.PlanTwoWords`).
- The schema walk goes down `properties` alone, so that a break in a definition only an enum's
  variants name goes unseen (`SchemaEdges.EnumHidesBreak`); no definition of `docs/schema.json` is
  such an enum. A name that is no longer required and that neither release lists as a property is reported by no
  rule (`SchemaEdges.UnlistedNeedHidden`, `SchemaEdges.UnlistedNeedHidesBreak`), and an inline body above a definition named `(inline)` is
  mistaken for it (`SchemaEdges.InlineNameHidesBreak`). Each of these is a comparison that finds
  nothing of two releases that do not read each other. The main theorem's scope,
  `SchemaMeaning.ScopeBelow`, leaves out just these and the type changes the tool's docstring puts
  out of scope: an enum is in it when nothing breaks among the definitions its variants lead to,
  and so whenever those are unchanged (`SchemaEdges.UnchangedEnumsInScope`). The promise goes one
  way, since the tool also reports what no message shows. Each break of a field is one that a peer
  may leave out and the other requires, but for three kinds (`SchemaBreaks.BreakIsUnmetIff`): a
  request's field that is gone and was as much or as little required as it is now
  (`SchemaEdges.BreakThoughRead`), a nullable field of an answer that is required now
  (`SchemaEdges.NullableNeedThoughRead`), and one that is gone and was nullable
  (`SchemaEdges.NullableGoneThoughRead`) or is still required.
- A traced call is given back exactly when its own text does not end in ` <unfinished ...>`, and all
  of an interleaving's calls exactly when none of a process's own do
  (`Traces.InterleavingReadsBack`).
- `grown` pairs each new key with the first partner, so it can refuse a change in which every new
  key is a move (`RatchetOrders.FirstTakesTheOnlyOne`,
  `RatchetOrders.FirstPartnerCanTakeTheOnlyOne`). In the order given, a change passes exactly when
  its new keys can all be paired and no partner taken is the last one left for a later key
  (`RatchetOrders.PassesIff`); where no new key has two to choose from, that is every change whose
  new keys are moves (`RatchetOrders.PassesWithoutChoice`). It passes in every order exactly when no
  choice of partners for other keys can use up those of one
  (`RatchetOrders.PassesInEveryOrderIff`). It never pairs fewer than half of what any pairing could
  (`Ratchet.PairsAtLeastHalf`).
- A quoted scalar of several lines reads as its stripped lines with a space between each two, which
  is YAML's value exactly when the two stay in step line by line (`FlowFolding.ReadsAsStandardIff`).
  Lines that stand plainly do: no empty line between two, no white space before the first line's
  text or behind the last's, no escaped break, no escaped space at a line's end, and no white space
  there that YAML does not fold. In single quotes no others do (`FlowFolding.SingleReadsPlainlyIff`),
  nor in double quotes (`FlowFolding.ReadsPlainlyIff`), except that an escaped break can make up for
  white space elsewhere (`FlowFoldingEdges.BrokenMakesUp`). `FlowFoldingEdges` has a scalar that
  reads wrong for each of those conditions. An escaped space before the closing quote is refused
  (`FlowFoldingEdges.EscapedSpaceIsRefused`).

## Model

| member | source | states |
|---|---|---|
| BoardObject.Board.constructor | tools/check-guards-fire.py:1996-2010 | the fields a new board starts with |
| BoardObject.Board.AnyQueued | tools/check-guards-fire.py:2015 | whether any task of a build is queued on any worker, both ways |
| BoardObject.Board.Ready | tools/check-guards-fire.py:2012-2018 | answers the first owed build that no queued and no running task has |
| Boards.FirstSettled | tools/check-guards-fire.py:2012-2018 | a build it answers is owed and settled; when it answers none, no owed build is settled |
| Boards.FirstSettledIsFirst | tools/check-guards-fire.py:2012-2018 | of the owed builds that are settled, it answers the first |
| Boards.LastFree | tools/check-guards-fire.py:2044-2046 | the last task that isn't pinned, and none only when all are |
| Boards.Victims | tools/check-guards-fire.py:2043 | every worker once, longest queue first, ties to the lower worker |
| Boards.PopChoosesWell | tools/check-guards-fire.py:2037-2047 | own front first; a thief takes the last free task of the longest queue that has one; nothing only when nothing is free to take |
| Boards.NextRestores | tools/check-guards-fire.py:2020-2026 | a restored run that is due comes before any task: that of the first owed build that is settled |
| Boards.NextWaits | tools/check-guards-fire.py:2027-2035 | with nothing it may take, a worker waits exactly while it owes a restored run or some build is running, and leaves otherwise |
| Boards.PutFiles | tools/check-guards-fire.py:2071-2072 | filing entries changes no result there was, and adds each entry's own value under its own key, in order |
| Boards.ValueStands | tools/check-guards-fire.py:2071-2072 | an entry's value stands behind those of the entries before it under its key |
| BoardObject.Board.Pop | tools/check-guards-fire.py:2037-2047 | takes the task at that place and removes it, and nothing else changes |
| BoardObject.Board.FindVictim | tools/check-guards-fire.py:2043-2046 | the scan of the other queues, each from its back, finds the place `Boards.Steal` names |
| BoardObject.Board.NextTask | tools/check-guards-fire.py:2020-2035 | the answer and the whole new board of one `next` |
| BoardObject.Board.Claim | tools/check-guards-fire.py:2029-2032 | a task taken counts its build as running and adds it to what the worker owes |
| BoardObject.Board.Attempt | tools/check-guards-fire.py:2049-2058 | one pass of `take`: nothing once the run is ending, else `next` |
| BoardObject.Board.Finish | tools/check-guards-fire.py:2060-2076 | each entry's own value behind the results its key had and those of the entries before it, what the task leaves at the front of the worker's own queue, its build counted down by one, in one step |
| BoardObject.Board.Fail | tools/check-guards-fire.py:2078-2082 | the run is ending |
| BoardObject.Board.Leave | tools/check-guards-fire.py:2084-2087 | one worker fewer is taking tasks |
| BoardObject.Board.Get | tools/check-guards-fire.py:2089-2104 | the results once there are enough; raises for an error, or when no worker is left to reach the count; else waits |
| BoardInvariant.SettledStays | tools/check-guards-fire.py:1988-1993 | once no task of a build is queued or running, no step of any worker queues or starts one |
| BoardInvariant.BatchConserves | tools/check-guards-fire.py:4651-4671 | a batch puts or queues each member exactly once |
| BoardInvariant.InitInv | tools/check-guards-fire.py:4766-4772 | the fault phase starts in the invariant |
| BoardInvariant.StepInv | tools/check-guards-fire.py:2107-2122 | every step of every worker keeps the whole invariant: tasks, running counts, owed builds, workers gone, results conserved, restored results counted |
| BoardTheorems.ReachableInv | tools/check-guards-fire.py:1980-2104 | the invariant holds at every state of every run, whatever the interleaving, crashes and stops included |
| BoardTheorems.StepCosts | tools/check-guards-fire.py:2107-2122 | every step lowers a measure that counts a batch as itself and its possible fallbacks |
| BoardTheorems.EveryRunEnds | tools/check-guards-fire.py:2107-2122 | no run is longer than the measure of its first state |
| BoardTheorems.NoDeadlock | tools/check-guards-fire.py:2034-2035 | in a state where no worker can move, every worker has left: none waits for what will not come |
| BoardTheorems.BusyCanFinish | tools/check-guards-fire.py:4757-4764 | a busy worker always has a finishing step |
| BoardTheorems.CompleteRun | tools/check-guards-fire.py:2089-2104 | when every worker has left without an error: queues empty, nothing owed or running, each fault and batch has exactly the results queued for it, each command one restored result for each worker that ran it |
| BoardTheorems.NeverOverFilled | tools/check-guards-fire.py:4813-4814 | no command ever has more restored results than workers that ran it |
| BoardTheorems.TouchedIsFinal | tools/check-guards-fire.py:4811-4813 | once every fault's and batch's result is in, no step changes what any worker has run, so the counts taken then are the final ones |
| BoardTheorems.CountsAreMet | tools/check-guards-fire.py:4811-4816 | wherever in a run the counts are taken, once those results are in, a run that ends without an error gives each command exactly as many restored results as were counted |
| BoardTheorems.RestoreAfterLastFault | tools/check-guards-fire.py:1984-1993 | from a restored run on, no fault of its build runs or starts on any worker |
| BoardTheorems.RestoredAtMostOnce | tools/check-guards-fire.py:1988-1993 | no worker restores a build twice |
| BoardTheorems.OwedIsRestored | tools/check-guards-fire.py:2023-2026 | what a worker owes it restores, in a run that ends owing nothing |
| BoardTheorems.RestoredExactlyOnceAfterLastFault | tools/check-guards-fire.py:1984-1993 | in a run that ends without an error, a worker that ran a build, clean or faulted, has exactly one restored run of it, and no fault of the build runs or starts anywhere from then on |
| FaultPhase.LintMembers | tools/check-guards-fire.py:2321-2328 | the positions of a command's batchable entries, in order, no other |
| FaultPhase.LintBatches | tools/check-guards-fire.py:2321-2328 | a batch for each command with two batchable entries or more, and for no other |
| FaultPhase.FirstFree | tools/check-guards-fire.py:2597-2601 | the first group that seeds none of the entry's files |
| FaultPhase.Place | tools/check-guards-fire.py:2595-2603 | placing an entry keeps the groups disjoint in files and in entries, and each entry in the first group that would take it |
| FaultPhase.ScriptBatches | tools/check-guards-fire.py:2586-2609 | exactly the groups of two entries or more, under their command and place; every script entry in exactly one group, no two of a group seeding one file |
| FaultQueues.KeptGroupsOk | tools/check-guards-fire.py:2604-2609 | no entry is in two script batches, and each batch is of one command |
| FaultQueues.HomeOfMembers | tools/check-guards-fire.py:4553-4558 | a batch is home to its members and to no one else |
| FaultQueues.DealFaults | tools/check-guards-fire.py:4551-4575 | each worker's queue has, in registry order, just the tasks of the places whose command it ran clean, each with its command's build, pinned where the source pins it |
| FaultQueues.Prepare | tools/check-guards-fire.py:4551-4575 | batching and dealing together give a phase the run theorems are about |
| FaultQueues.StartBoard | tools/check-guards-fire.py:4771-4772 | each worker owes each build it ran clean, once: the initial state of the runs |
| FaultQueues.EachOnce | tools/check-guards-fire.py:4559-4575 | summed over all places, each selected fault and each batch will put exactly one result |
| FaultQueues.ExactlyOneVerdict | tools/check-guards-fire.py:4773-4774 | after any run that ends without an error, each selected fault and each batch has exactly one result, whatever the schedule |
| FaultQueues.NeverTwoVerdicts | tools/check-guards-fire.py:4773-4774 | at no point of any run, failing ones included, does one have two |
| BoardVerdicts.ResultsArePosted | tools/check-guards-fire.py:2071-2072 | at every point of every run, the results under a key are what the tasks that ended answered under it, in the order they ended |
| BoardVerdicts.VerdictIsTheAnswer | tools/check-guards-fire.py:4773-4774 | after any run that ends without an error, the one result of each selected fault and each batch is what the one task that answered for it said |
| FaultQueues.BatchAnswersWell | tools/check-guards-fire.py:4651-4671 | a batch's answer, put together from what was refused, joined, proven and not, is one the run theorems hold for: proven and alone partition its members and each fallback carries its build |
| FaultQueues.AssembleHandsBack | tools/check-guards-fire.py:4651-4671 | with two entries joined or more, each the run proves gets its verdict and every other one a task of its own; with fewer, all get tasks; the report names the two lists |
| Seeding.ReplaceOnce | tools/check-guards-fire.py:1231-1236 | an anchor that matches once splits the text, and the replacement goes exactly between |
| Seeding.Seed | tools/check-guards-fire.py:1251-1278 | it seeds if and only if every transform, on what those before it left in its file, finds its file there and its anchor in it once, or a whole text other than its own; then each file holds what all of them made of it, and else, or dry, the tree is as it was; a refusal names the first transform that could not be made |
| Seeding.CountSays | tools/check-guards-fire.py:1262-1268 | an anchor is counted no times where it stands nowhere, and more than once just where it stands at two places apart |
| Seeding.EditsFiles | tools/check-guards-fire.py:1252-1278 | a fault edits the files its transforms name, all of them there before, and no other |
| Seeding.EditsLocal | tools/check-guards-fire.py:1252-1274 | what a fault edits, or why it refuses, depends on its own files alone |
| Seeding.DisjointSeedsTogether | tools/check-guards-fire.py:4695-4696 | entries that seed different files never refuse each other's edits, and leave each file as its own entry alone would and every other as it was |
| Seeding.SeedOrderIrrelevant | tools/check-guards-fire.py:2586-2590 | seeding such entries in any order gives the same tree |
| Texts.JoinSplit | tools/check-guards-fire.py:2341-2342 | splitting a text into lines and joining them gives the text |
| Texts.SplitJoin | tools/check-guards-fire.py:2411-2425 | lines read back from their joined text exactly when only the last lacks its newline |
| LineEdits.FindChange | tools/check-guards-fire.py:2338-2349 | the two loops find the change `ChangedLines` names |
| LineEdits.ChangeIsExact | tools/check-guards-fire.py:2338-2349 | putting the change into `before` makes `after` |
| LineEdits.ChangeIsLeast | tools/check-guards-fire.py:2339-2340 | neither end of what is taken out is what is put in, and it starts behind all the lines the two share at their start |
| LineEdits.Merge | tools/check-guards-fire.py:2411-2425 | the copying loop gives the merged lines and where each entry's own landed; the cursor never passes a hunk's start |
| LineEdits.StretchesHoldLines | tools/check-guards-fire.py:2418-2424 | each stretch of the merged file holds exactly its hunk's lines, and stretches follow one another |
| LineEdits.UndoLeavesOwnEdit | tools/check-guards-fire.py:2367-2372 | undoing every other hunk of a merged file leaves the text this entry's own edit makes |
| Batches.JoinEach | tools/check-guards-fire.py:2376-2407 | the entries that join, and every other one runs alone |
| Batches.JoinedApart | tools/check-guards-fire.py:2395-2407 | no two joined entries change overlapping lines |
| Batches.OrderedIsChain | tools/check-guards-fire.py:2414-2424 | hunks that don't overlap, in the sorted order, never start before the one ahead ends |
| Batches.PlanBatch | tools/check-guards-fire.py:2367-2426 | the plan: each touched file's joined text, each joined entry's regions, and the entries left to run alone |
| BatchJoins.JoinsIff | tools/check-guards-fire.py:2357-2398 | an entry joins if and only if its fault applies, it writes a line, and no entry that joined before it takes out a line it takes out or one around which it writes |
| BatchJoins.AloneBecause | tools/check-guards-fire.py:2357-2398 | the reason given for running alone is the one of the three that holds |
| BatchJoins.WrittenHasRegion | tools/check-guards-fire.py:2411-2425 | every file a joined entry writes lines of has a region of its own |
| Batches.PlanPartitions | tools/check-guards-fire.py:2367-2426 | each entry of the batch either has lines in it or runs alone, never both |
| Batches.RegionHoldsOwnLines | tools/check-guards-fire.py:2419-2424 | an entry's region holds exactly the lines its own fault writes |
| Batches.RegionsDisjoint | tools/check-guards-fire.py:2395-2424 | two entries' regions never share a line |
| Batches.UndoingOthersLeavesOwnSeed | tools/check-guards-fire.py:2367-2372 | undoing every other entry in a merged file leaves what the entry's own `seed` would write |
| BatchText.TextReadsBack | tools/check-guards-fire.py:2420-2425 | the text written has, line for line, the lines the plan counted if and only if no joined entry that leaves its last line open is followed by another entry's lines |
| BatchText.RegionHoldsInText | tools/check-guards-fire.py:2411-2425 | where that holds of a file, each region names, in the text as written, exactly the lines its entry's own fault writes |
| BatchText.OpenLinesRunTogether | tools/check-guards-fire.py:2411-2425 | any two faults that each add a line without a newline after a file's last one are both joined, and the text written for it does not have the lines counted |
| BatchText.PlanTwoWords | tools/check-guards-fire.py:2411-2425 | such a tree and two such faults, and the plan made of them |
| Attribution.Attribute | tools/check-guards-fire.py:2444-2521 | an entry is proven if and only if the run failed, compiled and parsed, an error carries its message wholly on its lines, and none carries it on no entry's; every other entry is unproven |
| Attribution.OneOwner | tools/check-guards-fire.py:2490-2504 | with regions that don't meet, at most one entry's lines hold a diagnostic's spans |
| Attribution.ProvenMeans | tools/check-guards-fire.py:2454-2459 | what stands behind a proven entry: an error on its own lines and no one else's, and none with its message off every entry's |
| Attribution.ProvenIff | tools/check-guards-fire.py:2455-2515 | an entry is proven if and only if the run failed, every line of it could be read and none is a compile error, some error carries its message on its own lines, and none carries it on no entry's |
| Attribution.OrderFree | tools/check-guards-fire.py:2466-2521 | the order of the output's lines changes no entry's verdict |
| Attribution.AttributeLines | tools/check-guards-fire.py:2620-2660 | an entry is proven if and only if the run failed and exactly one line carries its message, naming seeded files of its own alone; every other entry runs alone |
| Attribution.LineProvesOne | tools/check-guards-fire.py:2626-2631 | one line never proves two entries |
| BatchTasks.RunBatch | tools/check-guards-fire.py:4605-4671 | the whole lint batch: the entries that joined and that the run proves get the verdict that they fired, all others, and all when fewer than two joined, a task of their own, and the report names both; and the answer is one the run theorems hold for |
| BatchTasks.PlanRegionsDisjoint | tools/check-guards-fire.py:2419-2424 | the plan's regions are ones a diagnostic has at most one owner among |
| BatchTasks.SeedJoined | tools/check-guards-fire.py:4695-4696 | seeding the joined entries one after another leaves the tree holding each one's files as that entry alone would |
| BatchTasks.RunScriptBatch | tools/check-guards-fire.py:4673-4745 | the whole script batch: the seeded tree holds each joined entry's edits; the entries with a sole line in a run that failed in time get the verdict that they fired, all others a task of their own, and the report names both |
| BatchTasks.PickedProves | tools/check-guards-fire.py:4715-4719 | reading the joined entries by place in the joined list is reading them by position in the batch |
| BatchTasks.GroupSeedsApart | tools/check-guards-fire.py:2586-2590 | one group's entries seed different files, so they can be seeded together |
| VerdictCache.RecordIsWhole | tools/check-guards-fire.py:3702-3705 | the clean closure joined with what is stored beyond it is the clean and fault closures whole, with the seeded files |
| VerdictCache.UnionCovers | tools/check-guards-fire.py:3122-3130 | what either closure covers the joined one does |
| VerdictCache.OneRun | tools/check-guards-fire.py:3860-3862 | a command has one run in a world |
| CacheReasons.KeptIff | tools/check-guards-fire.py:3860-3935 | a verdict is kept if and only if the command may be traced, the record has it and it fired, the table, script, environment and commit are as recorded, and what the clean run and the entry's own rested on still holds |
| CacheReasons.WhyTells | tools/check-guards-fire.py:3860-3935 | whatever reason is given not to keep one is true |
| VerdictCache.KindSound | tools/check-guards-fire.py:3909-3922 | what kind of thing is at a covered path hasn't changed |
| VerdictCache.TreeSound | tools/check-guards-fire.py:3906-3934 | every covered question about the tree has the answer it had: text, kind, entries, tracked paths, lock entries |
| VerdictCache.SoundIffRestsTrue | tools/check-guards-fire.py:3906-3934 | a kept closure's questions about the tree all have the answers they had if and only if what the closure rests on is on disk: paths found, entries listed, files tracked |
| VerdictCache.FalseListingMisleads | tools/check-guards-fire.py:3909-3914 | a path git still lists that is gone from disk, or changed in kind, passes the checks though a run would see the difference |
| VerdictCache.DeletedFileMisleads | tools/check-guards-fire.py:3909-3914 | a record, a checkout with one file deleted and a command of one question: `why` keeps the verdict, and the command now ends the other way |
| VerdictCache.SoundIffListingIsTrue | tools/check-guards-fire.py:3906-3934 | the tree checks are sound if and only if each of the commit's paths that git still lists is on disk as the kind it was |
| VerdictCache.CleanListing | tools/check-guards-fire.py:3909-3914 | a checkout whose index holds only what is on disk meets that, when no path changed between file and directory |
| VerdictCache.SeedsAgree | tools/check-guards-fire.py:3638-3646 | a fault whose files didn't change seeds the same edits in both trees |
| VerdictCache.SeededTreeSound | tools/check-guards-fire.py:3702-3712 | on the two seeded trees too, every covered question has the answer it had |
| VerdictCache.AlikeSameAnswer | tools/check-guards-fire.py:3702-3712 | edits that write the same texts to the files a closure reads leave the answers to what it covers the same |
| VerdictCache.KeptAnswer | tools/check-guards-fire.py:3860-3935 | one question of a run whose verdict is kept has the answer it had, from the tree, the tools, the environment, the downloads or the history, on any two trees seeded alike |
| VerdictCache.KeptVerdictIsTheReruns | tools/check-guards-fire.py:3860-3935 | when `why` keeps a verdict recorded from a run of its own, and what its closure rests on is on disk, the re-run asks the same questions, hears the same answers and ends the same: it fires |
| VerdictCache.KeptRunIsTheReruns | tools/check-guards-fire.py:3860-3935 | so does any run that a kept closure covers, on any two trees seeded alike, and the command has no other run there |
| CacheBatches.KeptScriptBatch | tools/check-guards-fire.py:4717-4722 | a verdict recorded from a script batch: where the same entries apply as then, the batch's run on the tree seeded now asks, hears and ends the same |
| CacheBatches.KeptLintBatch | tools/check-guards-fire.py:4643-4648 | from a lint batch: where the same entries join as then, so does its run on the tree merged now, and the entry's own regions are where they were |
| CacheBatches.MembersKept | tools/check-guards-fire.py:4643-4648 | where no entry's files changed, the same entries apply and join |
| CacheBatches.LostMemberMisleads | tools/check-guards-fire.py:4717-4722 | a record of two entries seeded together, a checkout in which one of them no longer applies, and a command of one question: `why` keeps the other's verdict, and its own run now ends the other way |
| Sharding.Spread | tools/check-guards-fire.py:2187-2203 | each bin's keys as the loop deals them |
| Sharding.FillIsGreedy | tools/check-guards-fire.py:2199-2202 | each key goes onto a bin no other is lighter than |
| Sharding.BinsPartition | tools/check-guards-fire.py:2187-2203 | each key is in exactly one bin, once |
| Greedy.GapAtMostHeaviest | tools/check-guards-fire.py:2199-2202 | at every point no two bins of a greedy placement differ by more than the heaviest weight |
| Greedy.BigWeightFits | tools/check-guards-fire.py:2199-2202 | heaviest first, a weight over a third of another placement's fullest bin never takes its own bin past that |
| Sharding.SpreadGap | tools/check-guards-fire.py:2187-2203 | from empty bins, two bins' weights differ by at most the heaviest command's |
| Sharding.SpreadWithinTwice | tools/check-guards-fire.py:2187-2203 | the fullest bin is within 2 - 1/n of any other placement's fullest |
| Sharding.SpreadWithinFourThirds | tools/check-guards-fire.py:2187-2203 | and within 4/3 - 1/(3n), the order being heaviest first |
| Sharding.Assign | tools/check-guards-fire.py:2206-2219 | each worker's queue, pinned commands on the first worker, which starts that much heavier |
| Sharding.AssignPartitions | tools/check-guards-fire.py:2206-2219 | each command in exactly one worker's queue, pinned ones in the first's, each queue in registry order |
| Sharding.AssignIsGreedy | tools/check-guards-fire.py:2206-2219 | heaviest first, each command not pinned goes to a worker no other is lighter than, the first bearing the pinned ones' weight |
| Sharding.Shard | tools/check-guards-fire.py:2235-2245 | the entries of one shard, in registry order |
| Sharding.ShardWeightIs | tools/check-guards-fire.py:2235-2245 | a command weighs its entries' costs and its first entry's overhead |
| Sharding.ShardsPartition | tools/check-guards-fire.py:2235-2238 | each entry is in exactly one of the n shards, and a command's entries are all in the same one |
| Traces.TraceCalls | tools/check-guards-fire.py:2992-3013 | the calls the reader's state holds after the last line |
| Traces.ReadsApart | tools/check-guards-fire.py:2992-3013 | one process's calls don't depend on any other's lines between them |
| Traces.StrayLeavesNothing | tools/check-guards-fire.py:2998-3004 | a line that names no call and a later piece of a call that never began leave nothing |
| Traces.PrintAllGives | tools/check-guards-fire.py:3002-3012 | each call printed whole or split in any number of pieces comes back joined, in order, unless its own text ends as an unfinished piece does |
| Traces.InterleavingReadsBack | tools/check-guards-fire.py:2992-3013 | for any interleaving of processes, exactly which calls of each come back, joined and in the order they ended; all of them if and only if no call's own text ends as an unfinished piece does |
| Packages.Reach | tools/check-guards-fire.py:3176-3188 | on any graph, cyclic ones too, exactly the packages a path reaches from a root whose first edge is of any kind and whose later edges aren't dev ones |
| Packages.Follow | tools/check-guards-fire.py:3183-3187 | looking at one package keeps the worklist's invariant: what is seen is reachable, and what is seen and not waiting has been followed |
| Packages.ReachMonotone | tools/check-guards-fire.py:3176-3188 | more roots reach no less |
| Ratchet.PartitionIsWhole | tools/check-guards-fire.py:1588-1595 | the two halves of a key make it again around its first separator |
| Ratchet.Grown | tools/check-guards-fire.py:1573-1600 | the keys left over once each new key has taken the first vacated base key it shares a path or item with |
| Ratchet.MovesMatch | tools/check-guards-fire.py:1586-1600 | the pairing is one to one, of keys that share a path or an item, and what is returned is what it leaves out |
| Ratchet.PassedOnlyByMove | tools/check-guards-fire.py:1576-1583 | a listed key passes if and only if the base had it or one vacated base key, gone with its note, stands for it alone; no key returned could have had one left over |
| Ratchet.GrownIsBounded | tools/check-guards-fire.py:1576-1583 | the list is no longer than the base's by more keys than are returned |
| Ratchet.NeverLonger | tools/check-guards-fire.py:1573-1600 | over any sequence of merges that return nothing, the list never gets longer |
| Ratchet.PairsAtLeastHalf | tools/check-guards-fire.py:1589-1600 | however else the new keys could have been paired, this pairing has at least half as many pairs |
| Ratchet.PartitionIsFirst | tools/check-guards-fire.py:1588-1595 | no separator starts before the one a key is split at |
| RatchetOrders.PassesIff | tools/check-guards-fire.py:1573-1600 | a change passes if and only if some pairing gives every new key a vacated one and, in order, the first partner of none is the only one left for a later key |
| RatchetOrders.PassesWithoutChoice | tools/check-guards-fire.py:1576-1583 | where no new key shares with two vacated keys, a change passes if and only if every new key is a move |
| RatchetOrders.PassesInEveryOrderIff | tools/check-guards-fire.py:1589-1600 | whatever the order of the two lists, a change passes if and only if no new key's partners can all be taken by other keys |
| RatchetOrders.FirstTakesTheOnlyOne | tools/check-guards-fire.py:1589-1600 | where a first key shares with two vacated keys and a second with the first of them alone, every key is a move and the second is returned |
| RatchetOrders.FirstPartnerCanTakeTheOnlyOne | tools/check-guards-fire.py:1589-1600 | there are such keys |
| SchemaCompare.Comparison.Add | tools/check-schema-compat.py:220-223 | one break listed once, with each route it is found on once |
| SchemaCompare.Comparison.Hold | tools/check-schema-compat.py:253-342 | what holding one pair of shapes adds to `found`, however the schemas refer to themselves: it ends by the pairs of names not yet on its path |
| SchemaCompare.WalkOnlyReachable | tools/check-schema-compat.py:253-342 | each break found is a break of a pair some path of shared fields reaches |
| SchemaCompare.SimplePathWalked | tools/check-schema-compat.py:263-266 | a path that meets no pair twice is walked to its end |
| SchemaCompare.Shorten | tools/check-schema-compat.py:263-266 | any pair a path reaches a path without a repeat reaches |
| SchemaCompare.WalkIsReachability | tools/check-schema-compat.py:253-342 | the pruned walk applies the rule to a pair if and only if some path from the body reaches it |
| SchemaMeaning.NewNeedBreaks | tools/check-schema-compat.py:274-279 | a field the new reader needs that the old writer may leave out is a break, either side |
| SchemaMeaning.OldNeedBreaks | tools/check-schema-compat.py:287-317 | a field the old reader needs that the new writer may leave out is a break, either side |
| SchemaMeaning.SimulationCarries | tools/check-schema-compat.py:325-342 | along a simulation every message one release writes the other reads, at any depth |
| SchemaMeaning.NoBreakSimulation | tools/check-schema-compat.py:253-342 | when the walk from a body finds nothing, the pairs it reaches are a simulation in both directions |
| SchemaMeaning.SlotCompatible | tools/check-schema-compat.py:239-251 | one slot with no break: each release reads what the other writes there |
| SchemaMeaning.UnchangedMatches | tools/check-schema-compat.py:325-334 | a type that didn't change is in the theorem's scope |
| SchemaGate.CompareRoute | tools/check-schema-compat.py:350-368 | the breaks of one route: lost statuses and events, and each slot's, each under its route or event |
| SchemaGate.Compare | tools/check-schema-compat.py:345-369 | exactly the breaks of the routes gone and the routes both have, each shape's under just the routes it is found on |
| SchemaGate.NoBreakMeansCompatible | tools/check-schema-compat.py:345-369 | when nothing is found, every base route is there with its statuses and events, and each release reads the other's requests, queries, answers and events, at every depth |
| SchemaBreaks.ReportedIff | tools/check-schema-compat.py:270-324 | what each break of two shapes says of its field, and that it is reported exactly when that is so |
| SchemaBreaks.BreakIsUnmetIff | tools/check-schema-compat.py:270-324 | a break of a field names one that a peer may leave out and the other requires, but for exactly three kinds |
| SchemaBreaks.UnmetMisreads | tools/check-schema-compat.py:270-324 | then the one writes, if anything, a message that the other refuses |
| SchemaBreaks.GoneIsReadIff | tools/check-schema-compat.py:281-286 | an answer that is gone is read just when its shape needed nothing |
| SchemaBreaks.AdditionsPass | tools/check-schema-compat.py:345-369 | a release that keeps its routes and only adds, optional fields on either side and defaulted ones to answers, at any depth, is told of no break |
| SchemaBreaks.OptionalFieldsPass | tools/check-schema-compat.py:345-369 | and so one that adds routes, statuses, events, definitions, and optional fields to definitions |
| SchemaBreaks.LostIff | tools/check-schema-compat.py:350-362 | a lost route, status or event is reported exactly when it is lost |
| SchemaEdges.RenamedMatches | tools/check-schema-compat.py:325-334 | a type whose only definition was renamed is in the theorem's scope |
| SchemaEdges.UnchangedEnumsInScope | tools/check-schema-compat.py:253-342 | a body whose enums name only definitions that are unchanged with all they name is in scope, whatever else in it changed |
| SchemaEdges.EnumHidesBreak | tools/check-schema-compat.py:178-182 | whatever a definition named only in an enum's variant breaks goes unseen: the comparison finds nothing of two releases that do not read each other |
| SchemaEdges.UnlistedNeedHidden | tools/check-schema-compat.py:274-317 | no rule of either side names a field that was required, no longer is, and is a property of neither release |
| SchemaEdges.UnlistedNeedHidesBreak | tools/check-schema-compat.py:274-317 | so does the need of a name that is no property of either release |
| SchemaEdges.InlineNameHidesBreak | tools/check-schema-compat.py:235-236 | an inline body above a definition named as its placeholder is taken for it, and the whole comparison misses the break below |
| SchemaEdges.BreakThoughRead | tools/check-schema-compat.py:281-285 | the promise has no converse: a break is reported of two releases that read all of each other's messages |
| SchemaEdges.NullableNeedThoughRead | tools/check-schema-compat.py:319-325 | so it is of a nullable field of an answer that becomes required |
| SchemaEdges.NullableGoneThoughRead | tools/check-schema-compat.py:287-292 | and of one that is taken out |
| Mutmut.TallyUp | tools/check-mutmut.py:608-634 | by exit code: the names that end with 0, 36, 24, -24, 152 or 255, in order, how many end with 5 or 33, how many never ran, and how many did; or the first whose code says nothing, and that |
| Mutmut.FinishedVerdict | tools/check-mutmut.py:758-805 | of finished counts, more just when the function grew, by the counts themselves |
| Mutmut.StoppedVerdict | tools/check-mutmut.py:776-805 | of a stopped run's, exactly when it is more and when undecided |
| Mutmut.FinishedGrows | tools/check-mutmut.py:796-798 | however the unrun mutants end, the full tally has at least the stopped one's unreached and counted mutants, and at most the unrun ones more |
| Mutmut.MoreStands | tools/check-mutmut.py:795-804 | a function reported as having more survivors still has more in the full run |
| Mutmut.HeldPassStands | tools/check-mutmut.py:795-804 | a held function that passes still passes in the full run |
| Mutmut.OverturnableIsNot | tools/check-mutmut.py:776-779 | the other pass can be overturned: a base whose run mutants were all unreached, with some unrun, has a full run that reports more |
| Mutmut.UnrunCanAllBeKilled | tools/check-mutmut.py:608-634 | whatever mutants a stopped run left, a full run that kills them all is one of the ways it could have ended, and the counts it gives |
| Mutmut.DecidedIsFinalIff | tools/check-mutmut.py:758-805 | a verdict given is the verdict of every full run if and only if it isn't that pass |
| Mutmut.ExitCode | tools/check-mutmut.py:758-824 | 1 if and only if some function grew |
| Mutmut.TrimmingKeepsMore | tools/check-mutmut.py:945-955 | measuring the base only where some mutant survives changes no verdict that a function grew |
| Mutmut.TrimmingKeepsExit | tools/check-mutmut.py:945-955 | nor does it change what the whole gate exits with |
| Mutmut.ShardOf | tools/check-mutmut.py:844-865 | the functions the loop takes for shard k: that bin of a greedy placement, heaviest first; all of them for one shard |
| Mutmut.MutantShardsPartition | tools/check-mutmut.py:844-848 | each changed function is in exactly one shard |
| Quoted.Closing | tools/check-agents-md.py:535-549 | the index `Quoted.Close` names, or none |
| Quoted.CloseIsExact | tools/check-agents-md.py:535-549 | the quote found is at an index if and only if what stands before it is a scalar's body and the quote isn't half of a pair |
| Quoted.Yaml.UnescapeEach | tools/check-agents-md.py:751-762 | the escapes decoded one by one, or the first one that isn't in the table |
| Quoted.Yaml.ReadQuoted | tools/check-agents-md.py:736-762 | the scalar read, or why not, and the line the reader stands at next |
| Quoted.DecodeIsSpelling | tools/check-agents-md.py:748-762 | text between quotes decodes to a value if and only if it spells it |
| Quoted.EscapeReads | tools/check-agents-md.py:748-759 | what each escape reads as, and that any other is refused |
| Quoted.PrintsOneLine | tools/check-agents-md.py:736-762 | double-quoted, every string prints on one line; single-quoted, just those that have no newline |
| Quoted.SpelledReadsBack | tools/check-agents-md.py:736-762 | however a value is spelled between its quotes it is read back, and what follows the closing quote is white space, a comment, or refused |
| Quoted.RoundTrip | tools/check-agents-md.py:736-762 | every string is read back from its own print, in either kind of quotes |
| QuotedLines.ReadsStripped | tools/check-agents-md.py:738-748 | whatever lines hold a scalar, what is decoded is those lines, each stripped, with one space between each two, and the reader stands behind the last |
| QuotedLines.FoldedReadsBack | tools/check-agents-md.py:738-759 | where stripping takes off no more than the white space a piece stands in, the scalar reads as its pieces' values with one space between each two, however indented |
| QuotedLines.SpacedEndFails | tools/check-agents-md.py:746-757 | a last line that ends in an escaped space is refused |
| FlowFolding.ReadsAsStandardIff | tools/check-agents-md.py:738-762 | a scalar of several lines reads as the value of YAML 1.2.2 if and only if the two values keep in step: no empty line between two, no white space lost but spaces that escaped breaks make up for, one line after another |
| FlowFolding.ReadsPlainlyIff | tools/check-agents-md.py:738-762 | lines that stand plainly read as that value, and, but where escaped breaks and white space make up for each other, no others do |
| FlowFolding.SingleReadsPlainlyIff | tools/check-agents-md.py:738-750 | single-quoted, if and only if they stand plainly |
| FlowFoldingEdges.EmptyLineIsLost | tools/check-agents-md.py:738-748 | an empty line between two is a newline to YAML, in either kind of quotes, and one more space to the reader |
| FlowFoldingEdges.LeadIsLost | tools/check-agents-md.py:738-748 | white space before the first line's text is content, and is lost |
| FlowFoldingEdges.TrailIsLost | tools/check-agents-md.py:746-748 | so is white space behind the last line's |
| FlowFoldingEdges.EscapedBreakIsRead | tools/check-agents-md.py:738-759 | an escaped break joins two lines to YAML, and reads as a space |
| FlowFoldingEdges.EscapedSpaceIsLost | tools/check-agents-md.py:738-759 | an escaped space at a line's end is content besides the break's space, and is lost |
| FlowFoldingEdges.EscapedSpaceIsRefused | tools/check-agents-md.py:746-757 | before the closing quote it is refused |
| FlowFoldingEdges.OtherSpaceIsLost | tools/check-agents-md.py:738-748 | any white space but a space or a tab is content at a line's end, and is stripped |
| FlowFoldingEdges.BrokenMakesUp | tools/check-agents-md.py:738-759 | lines that do not stand plainly and still read as YAML says |

## Left out

- The clean pass as runs of its own: only the fault phase, which shares the board's methods, is modelled over runs.
- Waiting: `take` and `get` sleep on a condition variable and look again each second. `Attempt` and `Get` are one look.
- Processes, signals, timeouts, worktrees, environments, threads and printing: a command's run is its exit code and output, or, for the cache, a reader of the tree.
- Faults seeded by a patch: `git apply` is outside the model, and every fault here is made of transforms.
- BoardRuns.Answers: a fault's verdict and a restored run's exit code are any value a task may answer; what the board makes of the answer is `BoardVerdicts`.
- Paths as spelled: a transform's file is its normalised path, so two spellings of one file in one fault, which `seed` keeps as two entries of `edited`, are one here.
- FaultPhase.Batchable: the look at a `cargo clippy` argv is a given fact of the entry; and so is what `script_batchable` asks of a script's argv (`FaultPhase.ScriptBatchable`).
- BoardRuns.Config: what a command builds (`build_of`) is a given function of the command.
- Texts.SplitLines: a newline is the one line end; Python's `splitlines` also ends lines at other separators.
- BoardObject.Board.Fail: which error a board keeps, the first, is not modelled; that there is one is.
- Seeding.Seed: a fault's refusal or edits by a patch are not modelled, as said above.
- Attribution.Attribute: the place of an error and the reasons given for running alone are not modelled beyond what decides the verdict.
- Attribution.Said: lines of output come parsed, each plain, cut short, another record or a diagnostic; the reasons given for running alone are not modelled beyond what decides them.
- Attribution.AttributeLines: whether a line names a file is a given reader of the line, and the reasons given for running alone are not modelled.
- CacheBatches.KeptScriptBatch: that a batch's run proves what the entry's own would is what the attribution rules are for; the batch's run again is what this is about. The same goes for a lint batch.
- VerdictCache.Covers: that a trace's closure covers the run it was read from is what `read_trace` is for, and is taken as given; so is that equal digests of tools, settings and downloads mean equal behaviour.
- Sharding.ShardWeights: the figures `entry_cost` and `command_overhead` give are parameters; commands are numbered by their first place in the registry.
- The parsing of TOML, JSON, trace lines and `Cargo.lock`: each comes in parsed, or as a given reader.
- Mutmut.TallyUp: the mutants given are the function's own; picking them by the prefix of their names is not modelled.
- SchemaShapes.Def: there is no untagged union, so that `NameOrId` and `Shell` of `docs/schema.json` can only be plain scalars here.
- Changes of a schema's types, which the tool puts out of scope, and the declared breaks of `docs/schema-breaks.toml`.
- The wording of messages, and the order of the comparison's answer.
- FlowFolding.Legal: a scalar with an escape the reader does not know, which it refuses, is not held against YAML's value of it.
- The rest of the YAML reader, the other gate scripts, the Rust crates, the site and the drivers: they would add table comparisons, parsing and input or output.
