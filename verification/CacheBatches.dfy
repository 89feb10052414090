/** Verdicts recorded from a batch: when the cache keeps one, the batch run again ends as it did. */
module CacheBatches {
  import opened Prelude
  import opened Seeding
  import opened VerdictCache
  import Batches
  import BatchTasks
  import FaultQueues

  // ── the same fault, file by file ───────────────────────────────────────────

  /** Where a fault applies to two trees, what it makes of a file rests on that file alone. */
  lemma {:induction false} EditsAt(x: Tree, y: Tree, items: Fault, d: Tree, e: Tree, f: Path)
    requires Edits(x, items, d).Ok? && Edits(y, items, e).Ok?
    requires Text(x, d, f) == Text(y, e, f) && (f in d <==> f in e)
    ensures Held(Edits(x, items, d).value, f) == Held(Edits(y, items, e).value, f)
  {
    if items != [] {
      var (i, rest) := (items[0], items[1..]);
      var d' := d[i.file := Applied(Text(x, d, i.file).value, i)];
      var e' := e[i.file := Applied(Text(y, e, i.file).value, i)];
      EditsAt(x, y, rest, d', e', f);
    }
  }

  lemma EditsHeld(x: Tree, y: Tree, fault: Fault, f: Path)
    requires Edits(x, fault, map[]).Ok? && Edits(y, fault, map[]).Ok? && Held(x, f) == Held(y, f)
    ensures Held(Edits(x, fault, map[]).value, f) == Held(Edits(y, fault, map[]).value, f)
  {
    EditsAt(x, y, fault, map[], map[], f);
  }

  /** What a verdict recorded from a batch promises of any tree seeded now as the batch's was then. */
  lemma KeptFromBatch(parse: string -> map<string, string>, r: Recorded, id: string, table: string, now: Present,
                      own: Fault, ran: Closure, a: Tree, b: Tree, cmd: Command, answers: seq<Answer>)
    requires Why(parse, false, Some(r), id, table, now) == None
    requires r.entries[id].closure == EntryClosure(r.clean, ran, Files(own))
    requires WellFormed(r.commit) && WellFormed(now.checkout.files) && RestsTrue(Used(r, id), r.commit, now.checkout)
    requires Alike(Used(r, id), r.commit, now.checkout.files, a, b)
    requires IsRun(parse, cmd, ThenWorld(r, a), answers) && RunCovered(cmd, answers, ran, r.commit)
    ensures IsRun(parse, cmd, NowWorld(now, b), answers)
    ensures forall other :: IsRun(parse, cmd, NowWorld(now, b), other) ==> other == answers
  {
    StoredCovers(r, id, ran, Files(own), cmd, answers);
    KeptRunIsTheReruns(parse, r, id, table, now, a, b, cmd, answers);
  }

  /** It keeps what the run read, and the entry's own files. */
  lemma KeptReads(parse: string -> map<string, string>, r: Recorded, id: string, table: string, now: Present,
                  own: Fault, ran: Closure)
    requires Why(parse, false, Some(r), id, table, now) == None
    requires r.entries[id].closure == EntryClosure(r.clean, ran, Files(own))
    ensures ContentSame(Used(r, id), r.commit, now.checkout.files)
    ensures forall f :: f in Files(own) ==> Held(r.commit, f) == Held(now.checkout.files, f)
  {
    RecordIsWhole(r.clean, ran, Files(own));
    KeptContent(parse, Used(r, id), r.commit, now.checkout);
    assert Files(own) <= Used(r, id).content;
  }

  // ── script batches ─────────────────────────────────────────────────────────

  lemma HeldAsAlone(tree: Tree, fault: Fault, after: Tree, f: Path)
    requires AsAlone(tree, fault, after) && f in Files(fault)
    ensures Edits(tree, fault, map[]).Ok? && Held(after, f) == Held(Edits(tree, fault, map[]).value, f)
  {
    EditsFiles(tree, fault, map[]);
  }

  /** Two trees seeded with the same entries hold the same text where the trees did. */
  lemma SeededTogetherHeld(x: Tree, y: Tree, batch: seq<Fault>, a: Tree, b: Tree, f: Path)
    requires HoldsEach(x, batch, a) && HoldsEach(y, batch, b) && Held(x, f) == Held(y, f)
    ensures Held(a, f) == Held(b, f)
  {
    if i :| 0 <= i < |batch| && f in Files(batch[i]) {
      HeldAsAlone(x, batch[i], a, f);
      HeldAsAlone(y, batch[i], b, f);
      EditsHeld(x, y, batch[i], f);
    } else {
      assert Untouched(batch, f);
    }
  }

  /** No entry of the batch edits a lock file that its run's closure hasn't read. */
  ghost predicate LockApart(cl: Closure, batch: seq<Fault>) {
    LOCK in cl.content || Untouched(batch, LOCK)
  }

  lemma SeededTogetherAlike(cl: Closure, x: Tree, y: Tree, batch: seq<Fault>, a: Tree, b: Tree)
    requires ContentSame(cl, x, y) && LockApart(cl, batch) && HoldsEach(x, batch, a) && HoldsEach(y, batch, b)
    ensures Alike(cl, x, y, a, b)
  {
    forall f | f in cl.content ensures Held(a, f) == Held(b, f) {
      SeededTogetherHeld(x, y, batch, a, b, f);
    }
  }

  /** The same entries of a script batch apply to both trees. */
  ghost predicate SameApply(x: Tree, y: Tree, faults: seq<Fault>) {
    BatchTasks.Applies(x, faults, |faults|) == BatchTasks.Applies(y, faults, |faults|)
  }

  /** The entries of a script batch that are seeded together into this tree. */
  function Together(tree: Tree, faults: seq<Fault>): seq<Fault> {
    BatchTasks.Pick(faults, FaultQueues.InOrder(BatchTasks.Applies(tree, faults, |faults|), |faults|))
  }

  /** A verdict recorded from a script batch stands for the batch's run. When `why` keeps it, and
      the same entries apply as then, that run on the tree as it is now asks the same questions,
      hears the same answers and ends the same, so it proves what it proved. */
  lemma KeptScriptBatch(parse: string -> map<string, string>, r: Recorded, id: string, table: string, now: Present,
                        faults: seq<Fault>, own: Fault, ran: Closure, a: Tree, b: Tree, cmd: Command,
                        answers: seq<Answer>)
    requires Why(parse, false, Some(r), id, table, now) == None
    requires r.entries[id].closure == EntryClosure(r.clean, ran, Files(own))
    requires WellFormed(r.commit) && WellFormed(now.checkout.files) && RestsTrue(Used(r, id), r.commit, now.checkout)
    requires SameApply(r.commit, now.checkout.files, faults)
    requires LockApart(Used(r, id), Together(r.commit, faults))
    requires HoldsEach(r.commit, Together(r.commit, faults), a)
    requires HoldsEach(now.checkout.files, Together(now.checkout.files, faults), b)
    requires IsRun(parse, cmd, ThenWorld(r, a), answers) && RunCovered(cmd, answers, ran, r.commit)
    ensures IsRun(parse, cmd, NowWorld(now, b), answers)
    ensures forall other :: IsRun(parse, cmd, NowWorld(now, b), other) ==> other == answers
  {
    KeptReads(parse, r, id, table, now, own, ran);
    SeededTogetherAlike(Used(r, id), r.commit, now.checkout.files, Together(r.commit, faults), a, b);
    KeptFromBatch(parse, r, id, table, now, own, ran, a, b, cmd, answers);
  }

  // ── lint batches ───────────────────────────────────────────────────────────

  /** The same entries join a lint batch of both trees. */
  ghost predicate SameMembers(x: Tree, y: Tree, faults: seq<Fault>) {
    Batches.Joined(x, faults, |faults|).Keys == Batches.Joined(y, faults, |faults|).Keys
  }

  ghost predicate SameHunk(a: Batches.Hunks, b: Batches.Hunks, f: Path) {
    (f in a <==> f in b) && (f in a ==> a[f] == b[f])
  }

  lemma HunksHeld(x: Tree, y: Tree, fault: Fault, a: Batches.Hunks, b: Batches.Hunks, f: Path)
    requires Batches.OwnHunks(x, fault, a) && Batches.OwnHunks(y, fault, b) && Held(x, f) == Held(y, f)
    ensures SameHunk(a, b, f)
  {
    EditsHeld(x, y, fault, f);
    assert Batches.LinesOf(x, f) == Batches.LinesOf(y, f);
  }

  lemma JoinedHeld(x: Tree, y: Tree, faults: seq<Fault>, f: Path)
    requires SameMembers(x, y, faults) && Held(x, f) == Held(y, f)
    ensures forall p :: p in Batches.Joined(x, faults, |faults|) ==>
                          SameHunk(Batches.Joined(x, faults, |faults|)[p], Batches.Joined(y, faults, |faults|)[p], f)
  {
    var (jx, jy) := (Batches.Joined(x, faults, |faults|), Batches.Joined(y, faults, |faults|));
    Batches.JoinedOk(x, faults, |faults|);
    Batches.JoinedOk(y, faults, |faults|);
    forall p | p in jx ensures SameHunk(jx[p], jy[p], f) {
      HunksHeld(x, y, faults[p], jx[p], jy[p], f);
    }
  }

  lemma {:induction false} CollectHeld(a: map<nat, Batches.Hunks>, b: map<nat, Batches.Hunks>, f: Path, n: nat)
    requires a.Keys == b.Keys && forall p :: p in a ==> SameHunk(a[p], b[p], f)
    ensures Batches.Collect(a, f, n) == Batches.Collect(b, f, n)
  {
    if n > 0 {
      CollectHeld(a, b, f, n - 1);
      assert n - 1 in a ==> SameHunk(a[n - 1], b[n - 1], f);
    }
  }

  /** A file that's the same in both is merged the same, each entry's lines landing where they did. */
  lemma MergedHeld(x: Tree, y: Tree, faults: seq<Fault>, f: Path)
    requires SameMembers(x, y, faults) && Held(x, f) == Held(y, f)
    ensures Batches.FileText(x, faults, f) == Batches.FileText(y, faults, f)
    ensures forall p: nat :: Batches.FileRegions(x, faults, f, p) == Batches.FileRegions(y, faults, f, p)
    ensures f in Batches.TouchedBy(Batches.Joined(x, faults, |faults|)) <==>
            f in Batches.TouchedBy(Batches.Joined(y, faults, |faults|))
  {
    var (jx, jy) := (Batches.Joined(x, faults, |faults|), Batches.Joined(y, faults, |faults|));
    JoinedHeld(x, y, faults, f);
    CollectHeld(jx, jy, f, |faults|);
    assert Batches.InFile(jx, f, |faults|) == Batches.InFile(jy, f, |faults|);
    assert Batches.LinesOf(x, f) == Batches.LinesOf(y, f);
  }

  // ── lint batches, as planned ───────────────────────────────────────────────

  /** A joined entry has a hunk in each of its own files, all of them there. */
  lemma JoinedFiles(tree: Tree, faults: seq<Fault>, p: nat)
    requires p in Batches.Joined(tree, faults, |faults|)
    ensures p < |faults| && Batches.Joined(tree, faults, |faults|)[p].Keys == Files(faults[p]) <= tree.Keys
  {
    Batches.JoinedOk(tree, faults, |faults|);
    EditsFiles(tree, faults[p], map[]);
  }

  lemma PlanThere(tree: Tree, faults: seq<Fault>, plan: Batches.Plan)
    requires Batches.IsPlan(tree, faults, plan)
    ensures plan.texts.Keys <= tree.Keys
  {
    var joined := Batches.Joined(tree, faults, |faults|);
    forall f | f in Batches.TouchedBy(joined) ensures f in tree {
      var p :| p in joined && f in joined[p];
      JoinedFiles(tree, faults, p);
    }
  }

  /** The merged trees hold the same text where the trees did. */
  lemma PlannedHeld(x: Tree, y: Tree, faults: seq<Fault>, px: Batches.Plan, py: Batches.Plan, f: Path)
    requires Batches.IsPlan(x, faults, px) && Batches.IsPlan(y, faults, py)
    requires SameMembers(x, y, faults) && Held(x, f) == Held(y, f)
    ensures Held(x + px.texts, f) == Held(y + py.texts, f)
  {
    MergedHeld(x, y, faults, f);
    assert f in px.texts <==> f in py.texts;
  }

  /** No joined entry edits a lock file that its run's closure hasn't read. */
  ghost predicate LockUnplanned(cl: Closure, texts: Tree) {
    LOCK in cl.content || LOCK !in texts
  }

  lemma PlannedContent(cl: Closure, x: Tree, y: Tree, faults: seq<Fault>, px: Batches.Plan, py: Batches.Plan)
    requires ContentSame(cl, x, y) && SameMembers(x, y, faults)
    requires Batches.IsPlan(x, faults, px) && Batches.IsPlan(y, faults, py)
    ensures ContentSame(cl, x + px.texts, y + py.texts)
  {
    forall f | f in cl.content ensures Held(x + px.texts, f) == Held(y + py.texts, f) {
      PlannedHeld(x, y, faults, px, py, f);
    }
  }

  lemma LaidAlike(cl: Closure, x: Tree, y: Tree, px: Tree, py: Tree)
    requires px.Keys <= x.Keys && py.Keys <= y.Keys && ContentSame(cl, x + px, y + py)
    requires LockUnplanned(cl, px) && LockUnplanned(cl, py)
    ensures Alike(cl, x, y, x + px, y + py)
  {
  }

  lemma PlannedAlike(cl: Closure, x: Tree, y: Tree, faults: seq<Fault>, px: Batches.Plan, py: Batches.Plan)
    requires ContentSame(cl, x, y) && SameMembers(x, y, faults)
    requires Batches.IsPlan(x, faults, px) && Batches.IsPlan(y, faults, py)
    requires LockUnplanned(cl, px.texts) && LockUnplanned(cl, py.texts)
    ensures Alike(cl, x, y, x + px.texts, y + py.texts)
  {
    PlanThere(x, faults, px);
    PlanThere(y, faults, py);
    PlannedContent(cl, x, y, faults, px, py);
    LaidAlike(cl, x, y, px.texts, py.texts);
  }

  lemma RegionsWithin(x: Tree, y: Tree, faults: seq<Fault>, p: nat)
    requires SameMembers(x, y, faults) && p < |faults|
    requires forall f :: f in Files(faults[p]) ==> Held(x, f) == Held(y, f)
    ensures Batches.AllRegions(x, faults, Batches.TouchedBy(Batches.Joined(x, faults, |faults|)), p) <=
            Batches.AllRegions(y, faults, Batches.TouchedBy(Batches.Joined(y, faults, |faults|)), p)
  {
    var (jx, jy) := (Batches.Joined(x, faults, |faults|), Batches.Joined(y, faults, |faults|));
    forall r | r in Batches.AllRegions(x, faults, Batches.TouchedBy(jx), p)
      ensures r in Batches.AllRegions(y, faults, Batches.TouchedBy(jy), p)
    {
      var f :| f in Batches.TouchedBy(jx) && r in Batches.FileRegions(x, faults, f, p);
      RegionInOwnFile(x, faults, f, p, r);
      MergedHeld(x, y, faults, f);
    }
  }

  lemma RegionInOwnFile(tree: Tree, faults: seq<Fault>, f: Path, p: nat, r: Batches.Region)
    requires r in Batches.FileRegions(tree, faults, f, p)
    ensures p < |faults| && f in Files(faults[p])
  {
    var i := Batches.RegionStretch(tree, faults, f, p, r);
    Batches.InFileMembers(Batches.Joined(tree, faults, |faults|), f, |faults|);
    JoinedFiles(tree, faults, p);
  }

  /** An entry whose own files are the same has its lines where they were. */
  lemma OwnRegionsKept(x: Tree, y: Tree, faults: seq<Fault>, px: Batches.Plan, py: Batches.Plan, p: nat)
    requires Batches.IsPlan(x, faults, px) && Batches.IsPlan(y, faults, py) && SameMembers(x, y, faults)
    requires p in px.regions && p < |faults| && forall f :: f in Files(faults[p]) ==> Held(x, f) == Held(y, f)
    ensures p in py.regions && py.regions[p] == px.regions[p]
  {
    RegionsWithin(x, y, faults, p);
    RegionsWithin(y, x, faults, p);
  }

  /** So it is of a lint batch: when `why` keeps the verdict of an entry the batch's run proved, and
      the same entries join as then, the run on the tree merged now asks, hears and ends the same,
      and the entry's own lines are where they were. */
  lemma KeptLintBatch(parse: string -> map<string, string>, r: Recorded, id: string, table: string, now: Present,
                      faults: seq<Fault>, p: nat, ran: Closure, before: Batches.Plan, after: Batches.Plan,
                      cmd: Command, answers: seq<Answer>)
    requires Why(parse, false, Some(r), id, table, now) == None
    requires p < |faults| && r.entries[id].closure == EntryClosure(r.clean, ran, Files(faults[p]))
    requires WellFormed(r.commit) && WellFormed(now.checkout.files) && RestsTrue(Used(r, id), r.commit, now.checkout)
    requires Batches.IsPlan(r.commit, faults, before) && Batches.IsPlan(now.checkout.files, faults, after)
    requires p in before.regions && SameMembers(r.commit, now.checkout.files, faults)
    requires LockUnplanned(Used(r, id), before.texts) && LockUnplanned(Used(r, id), after.texts)
    requires IsRun(parse, cmd, ThenWorld(r, r.commit + before.texts), answers)
    requires RunCovered(cmd, answers, ran, r.commit)
    ensures var w := NowWorld(now, now.checkout.files + after.texts);
            IsRun(parse, cmd, w, answers) && forall other :: IsRun(parse, cmd, w, other) ==> other == answers
    ensures p in after.regions && after.regions[p] == before.regions[p]
  {
    var (cl, then_, files) := (Used(r, id), r.commit, now.checkout.files);
    KeptReads(parse, r, id, table, now, faults[p], ran);
    PlannedAlike(cl, then_, files, faults, before, after);
    KeptFromBatch(parse, r, id, table, now, faults[p], ran, then_ + before.texts, files + after.texts, cmd, answers);
    OwnRegionsKept(then_, files, faults, before, after, p);
  }

  // ── when the members are the same ──────────────────────────────────────────

  ghost predicate FilesHeld(x: Tree, y: Tree, faults: seq<Fault>) {
    forall i, f :: 0 <= i < |faults| && f in Files(faults[i]) ==> Held(x, f) == Held(y, f)
  }

  lemma EditsSame(x: Tree, y: Tree, fault: Fault)
    requires forall f :: f in Files(fault) ==> Held(x, f) == Held(y, f)
    ensures Edits(x, fault, map[]) == Edits(y, fault, map[])
  {
    forall f | f in Files(fault) ensures Text(x, map[], f) == Text(y, map[], f) {
      assert Held(x, f) == Held(y, f);
    }
    EditsLocal(x, y, fault, map[]);
  }

  lemma HunksSame(x: Tree, y: Tree, edited: Tree)
    requires forall f :: f in edited ==> Held(x, f) == Held(y, f)
    ensures Batches.HunksOf(x, edited) == Batches.HunksOf(y, edited)
  {
    forall f | f in edited ensures Batches.LinesOf(x, f) == Batches.LinesOf(y, f) {
      assert Held(x, f) == Held(y, f);
    }
  }

  lemma JudgedSame(x: Tree, y: Tree, joined: map<nat, Batches.Hunks>, fault: Fault)
    requires forall f :: f in Files(fault) ==> Held(x, f) == Held(y, f)
    ensures Batches.Judge(x, joined, fault) == Batches.Judge(y, joined, fault)
  {
    EditsSame(x, y, fault);
    if Edits(x, fault, map[]).Ok? {
      EditsFiles(x, fault, map[]);
      HunksSame(x, y, Edits(x, fault, map[]).value);
    }
  }

  lemma {:induction false} JoinedSame(x: Tree, y: Tree, faults: seq<Fault>, n: nat)
    requires FilesHeld(x, y, faults) && n <= |faults|
    ensures Batches.Joined(x, faults, n) == Batches.Joined(y, faults, n)
  {
    if n > 0 {
      JoinedSame(x, y, faults, n - 1);
      JudgedSame(x, y, Batches.Joined(x, faults, n - 1), faults[n - 1]);
    }
  }

  /** Where no entry's files changed, the same entries apply and join. */
  lemma MembersKept(x: Tree, y: Tree, faults: seq<Fault>)
    requires FilesHeld(x, y, faults)
    ensures SameApply(x, y, faults) && SameMembers(x, y, faults)
  {
    JoinedSame(x, y, faults, |faults|);
    forall p: nat | p < |faults| ensures Seeded(x, faults[p]).Ok? == Seeded(y, faults[p]).Ok? {
      EditsSame(x, y, faults[p]);
    }
  }

  // ── when they aren't ───────────────────────────────────────────────────────

  const X: Path := ["x"]
  const Y: Path := ["y"]
  const Z: Path := ["z"]

  /** One entry makes `x` new, another `y` and `z`. */
  function TwoFaults(): seq<Fault> {
    [[Whole(X, "new")], [Whole(Y, "new"), Whole(Z, "new")]]
  }

  /** A record of the two seeded together and run by a command that read `y`, and of the first
      entry's verdict. */
  function SawBoth(): Recorded {
    var ran := Closure({Y}, {}, {}, {}, None, {}, {}, {}, true);
    Recorded(map[X := "old", Y := "old", Z := "old"], "", map[], map[], map[], Looks(Y),
             map["id" := Entry("table", true, EntryClosure(Looks(Y), ran, {X}))])
  }

  /** By now `z` is new, so that the second entry has nothing to change there. */
  function OneLeft(): Present {
    Present(Checkout({X, Y, Z}, map[X := "old", Y := "old", Z := "new"]), true, "", map[], map[], map[])
  }

  /** Fires if `y` is new. */
  function ReadsY(answers: seq<Answer>): Move {
    if answers == [] then Asks(Content(Y)) else Ends(answers[0] == Holds(Some("new")))
  }

  lemma KeptWithOneLeft(parse: string -> map<string, string>)
    ensures Why(parse, false, Some(SawBoth()), "id", "table", OneLeft()) == None
  {
    var (r, now) := (SawBoth(), OneLeft());
    assert X[0] != Y[0] && X[0] != Z[0] && Y[0] != Z[0] && THIS[0] != Z[0];
    assert Changed(r.commit, now.checkout) == {Z};
    var cl := Used(r, "id");
    assert cl.content == {X, Y} && cl.present == {Y} && cl.absent == {} && cl.listed == {} && cl.locked == {};
    assert TreeWhy(parse, cl, r.commit, now.checkout) == None;
  }

  lemma SeedsX(tree: Tree)
    requires X in tree && tree[X] != "new"
    ensures Seeded(tree, TwoFaults()[0]) == Ok(tree[X := "new"])
  {
    var items := TwoFaults()[0];
    assert items[1..] == [];
    assert Edits(tree, items, map[]) == Ok(map[X := "new"]);
    assert tree + map[X := "new"] == tree[X := "new"];
  }

  lemma EditsZ(tree: Tree, edited: Tree)
    requires Z in tree && Z !in edited && tree[Z] != "new"
    ensures Edits(tree, [Whole(Z, "new")], edited) == Ok(edited[Z := "new"])
  {
    var items := [Whole(Z, "new")];
    assert items[1..] == [];
    assert Edits(tree, items[1..], edited[Z := "new"]) == Ok(edited[Z := "new"]);
  }

  lemma SeedsYZ(tree: Tree)
    requires Y in tree && Z in tree && tree[Y] != "new"
    ensures Seeded(tree, TwoFaults()[1]) ==
            if tree[Z] == "new" then Err(AlreadyHeld(Z)) else Ok(tree[Y := "new"][Z := "new"])
  {
    var items := TwoFaults()[1];
    assert Y[0] != Z[0];
    assert items[1..] == [Whole(Z, "new")];
    assert Edits(tree, items, map[]) == Edits(tree, [Whole(Z, "new")], map[Y := "new"]);
    if tree[Z] != "new" {
      EditsZ(tree, map[Y := "new"]);
      assert tree + map[Y := "new"][Z := "new"] == tree[Y := "new"][Z := "new"];
    }
  }

  lemma SeedsBoth(tree: Tree)
    requires X in tree && Y in tree && Z in tree && tree[X] != "new" && tree[Y] != "new" && tree[Z] != "new"
    ensures SeedAll(tree, TwoFaults()) == Ok(tree[X := "new"][Y := "new"][Z := "new"])
  {
    var faults := TwoFaults();
    assert X[0] != Y[0] && X[0] != Z[0] && Y[0] != Z[0];
    SeedsX(tree);
    SeedsYZ(tree[X := "new"]);
    assert faults[1..][0] == faults[1] && faults[1..][1..] == [];
  }

  lemma WhoApplies(tree: Tree)
    requires X in tree && Y in tree && Z in tree && tree[X] != "new" && tree[Y] != "new"
    ensures BatchTasks.Applies(tree, TwoFaults(), 2) == if tree[Z] == "new" then {0} else {0, 1}
  {
    SeedsX(tree);
    SeedsYZ(tree);
  }

  lemma AsksForY(parse: string -> map<string, string>, w: World, text: string)
    requires Y in w.files && w.files[Y] == text
    ensures IsRun(parse, ReadsY, w, [Holds(Some(text))])
  {
    var answers := [Holds(Some(text))];
    assert answers[..0] == [];
    assert Answered(parse, ReadsY, w, answers, 0);
  }

  /** A file of the other entry that no run read changes, so that it no longer applies; `why` keeps
      the first one's verdict, though its own run now ends the other way than the batch's did. */
  lemma LostMemberMisleads(parse: string -> map<string, string>)
    ensures Why(parse, false, Some(SawBoth()), "id", "table", OneLeft()) == None
    ensures var (then_, now) := (SawBoth().commit, OneLeft().checkout.files);
            && BatchTasks.Applies(then_, TwoFaults(), 2) == {0, 1} && BatchTasks.Applies(now, TwoFaults(), 2) == {0}
            && SeedAll(then_, TwoFaults()).Ok? && Seeded(now, TwoFaults()[0]).Ok?
            && IsRun(parse, ReadsY, ThenWorld(SawBoth(), SeedAll(then_, TwoFaults()).value), [Holds(Some("new"))])
            && IsRun(parse, ReadsY, NowWorld(OneLeft(), Seeded(now, TwoFaults()[0]).value), [Holds(Some("old"))])
    ensures ReadsY([Holds(Some("new"))]) == Ends(true) && ReadsY([Holds(Some("old"))]) == Ends(false)
  {
    KeptWithOneLeft(parse);
    var (then_, now, faults) := (SawBoth().commit, OneLeft().checkout.files, TwoFaults());
    assert X[0] != Y[0] && X[0] != Z[0] && Y[0] != Z[0];
    WhoApplies(then_);
    WhoApplies(now);
    SeedsBoth(then_);
    SeedsX(now);
    AsksForY(parse, ThenWorld(SawBoth(), SeedAll(then_, faults).value), "new");
    AsksForY(parse, NowWorld(OneLeft(), Seeded(now, faults[0]).value), "old");
  }
}
