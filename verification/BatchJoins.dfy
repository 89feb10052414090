/** Who joins a lint batch and who runs alone, and why, by what the entries' edits change. */
module BatchJoins {
  import opened Prelude
  import opened Seeding
  import opened Texts
  import opened LineEdits
  import opened Batches

  /** What a fault, which applies, changes in a file it edits. */
  function ChangeOf(tree: Tree, fault: Fault, f: Path): Hunk<Line>
    requires Edits(tree, fault, map[]).Ok? && f in Edits(tree, fault, map[]).value
  {
    ChangedLines(LinesOf(tree, f), SplitLines(Edits(tree, fault, map[]).value[f]))
  }

  /** It puts a line into some file. */
  ghost predicate WritesSome(tree: Tree, fault: Fault)
    requires Edits(tree, fault, map[]).Ok?
  {
    exists f :: f in Edits(tree, fault, map[]).value && ChangeOf(tree, fault, f).lines != []
  }

  predicate TakesOut<T>(h: Hunk<T>, i: nat) {
    h.start <= i < h.end
  }

  /** Both take out one line, or one puts its lines between two that the other takes out. */
  ghost predicate Meet<T>(a: Hunk<T>, b: Hunk<T>) {
    || (exists i :: TakesOut(a, i) && TakesOut(b, i))
    || (a.start == a.end && b.start < a.start < b.end)
    || (b.start == b.end && a.start < b.start < a.end)
  }

  lemma OverlapIsMeet<T>(a: Hunk<T>, b: Hunk<T>)
    requires a.start <= a.end && b.start <= b.end
    ensures Overlap(a, b) <==> Meet(a, b)
  {
    if Overlap(a, b) && a.start < a.end && b.start < b.end {
      var i := if a.start < b.start then b.start else a.start;
      assert TakesOut(a, i) && TakesOut(b, i);
    }
  }

  /** Two faults that meet in some file. */
  ghost predicate FaultsMeet(tree: Tree, a: Fault, b: Fault)
    requires Edits(tree, a, map[]).Ok? && Edits(tree, b, map[]).Ok?
  {
    exists f :: f in Edits(tree, a, map[]).value && f in Edits(tree, b, map[]).value
                && Meet(ChangeOf(tree, a, f), ChangeOf(tree, b, f))
  }

  lemma ClashIsMeet(tree: Tree, a: Fault, b: Fault)
    requires Edits(tree, a, map[]).Ok? && Edits(tree, b, map[]).Ok?
    ensures Clash(HunksOf(tree, Edits(tree, a, map[]).value), HunksOf(tree, Edits(tree, b, map[]).value)) <==>
            FaultsMeet(tree, a, b)
  {
    var (x, y) := (Edits(tree, a, map[]).value, Edits(tree, b, map[]).value);
    forall f | f in x && f in y
      ensures Overlap(HunksOf(tree, x)[f], HunksOf(tree, y)[f]) <==> Meet(ChangeOf(tree, a, f), ChangeOf(tree, b, f))
    {
      ChangeIsExact(LinesOf(tree, f), SplitLines(x[f]));
      ChangeIsExact(LinesOf(tree, f), SplitLines(y[f]));
      OverlapIsMeet(ChangeOf(tree, a, f), ChangeOf(tree, b, f));
    }
  }

  /** Nothing later changes who of the first `n` joined. */
  lemma {:induction false} JoinedEarlier(tree: Tree, faults: seq<Fault>, n: nat, m: nat)
    requires n <= m <= |faults|
    ensures forall p: nat :: p in Joined(tree, faults, n) <==> p < n && p in Joined(tree, faults, m)
    decreases m
  {
    JoinedBelow(tree, faults, n);
    if n < m {
      JoinedEarlier(tree, faults, n, m - 1);
    }
  }

  /** One that joined earlier changes what this fault changes. */
  ghost predicate MeetsEarlier(tree: Tree, faults: seq<Fault>, p: nat)
    requires p < |faults| && Edits(tree, faults[p], map[]).Ok?
  {
    exists q: nat :: q < p && q in Joined(tree, faults, |faults|) && Edits(tree, faults[q], map[]).Ok?
                     && FaultsMeet(tree, faults[q], faults[p])
  }

  /** Why an entry doesn't join. */
  ghost predicate Because(tree: Tree, faults: seq<Fault>, p: nat, why: Why)
    requires p < |faults|
  {
    var edited := Edits(tree, faults[p], map[]);
    if edited.Err? then why == Stale(edited.error)
    else if !WritesSome(tree, faults[p]) then why == WritesNothing
    else MeetsEarlier(tree, faults, p) && why == Clashes
  }

  predicate ClashesWith(joined: map<nat, Hunks>, hunks: Hunks) {
    exists q :: q in joined && Clash(joined[q], hunks)
  }

  lemma EarlierClash(tree: Tree, faults: seq<Fault>, p: nat, q: nat)
    requires p < |faults| && Edits(tree, faults[p], map[]).Ok? && q in Joined(tree, faults, p)
    ensures q < p && Edits(tree, faults[q], map[]).Ok?
    ensures Clash(Joined(tree, faults, p)[q], HunksOf(tree, Edits(tree, faults[p], map[]).value)) <==>
            FaultsMeet(tree, faults[q], faults[p])
  {
    JoinedOk(tree, faults, p);
    ClashIsMeet(tree, faults[q], faults[p]);
  }

  /** It clashes with the entries so far just when it meets one that joined before it. */
  lemma ClashesEarlier(tree: Tree, faults: seq<Fault>, p: nat)
    requires p < |faults| && Edits(tree, faults[p], map[]).Ok?
    ensures ClashesWith(Joined(tree, faults, p), HunksOf(tree, Edits(tree, faults[p], map[]).value)) <==>
            MeetsEarlier(tree, faults, p)
  {
    var (before, mine) := (Joined(tree, faults, p), HunksOf(tree, Edits(tree, faults[p], map[]).value));
    JoinedEarlier(tree, faults, p, |faults|);
    if ClashesWith(before, mine) {
      var q :| q in before && Clash(before[q], mine);
      EarlierClash(tree, faults, p, q);
    }
    if MeetsEarlier(tree, faults, p) {
      var q: nat :| q < p && q in Joined(tree, faults, |faults|) && Edits(tree, faults[q], map[]).Ok?
                    && FaultsMeet(tree, faults[q], faults[p]);
      EarlierClash(tree, faults, p, q);
    }
  }

  lemma JudgeSays(tree: Tree, joined: map<nat, Hunks>, fault: Fault)
    ensures var edited := Edits(tree, fault, map[]);
            Judge(tree, joined, fault) ==
            if edited.Err? then Err(Stale(edited.error))
            else if !WritesLine(HunksOf(tree, edited.value)) then Err(WritesNothing)
            else if ClashesWith(joined, HunksOf(tree, edited.value)) then Err(Clashes)
            else Ok(HunksOf(tree, edited.value))
  {
  }

  lemma JudgedBecause(tree: Tree, faults: seq<Fault>, p: nat)
    requires p < |faults|
    ensures var judged := Judge(tree, Joined(tree, faults, p), faults[p]);
            if judged.Err? then Because(tree, faults, p, judged.error)
            else Edits(tree, faults[p], map[]).Ok? && WritesSome(tree, faults[p]) && !MeetsEarlier(tree, faults, p)
  {
    JudgeSays(tree, Joined(tree, faults, p), faults[p]);
    if Edits(tree, faults[p], map[]).Ok? {
      ClashesEarlier(tree, faults, p);
      WritesIsSome(tree, faults[p]);
    }
  }

  lemma WritesIsSome(tree: Tree, fault: Fault)
    requires Edits(tree, fault, map[]).Ok?
    ensures WritesLine(HunksOf(tree, Edits(tree, fault, map[]).value)) <==> WritesSome(tree, fault)
  {
    var hunks := HunksOf(tree, Edits(tree, fault, map[]).value);
    assert forall f :: f in hunks ==> hunks[f] == ChangeOf(tree, fault, f);
  }

  /** An entry joins if and only if its fault applies, writes a line, and meets none that joined
      before it. */
  lemma JoinsIff(tree: Tree, faults: seq<Fault>, p: nat)
    requires p < |faults|
    ensures p in Joined(tree, faults, |faults|) <==>
            Edits(tree, faults[p], map[]).Ok? && WritesSome(tree, faults[p]) && !MeetsEarlier(tree, faults, p)
  {
    JudgedBecause(tree, faults, p);
    JoinsWhenJudged(tree, faults, p);
  }

  lemma JoinsWhenJudged(tree: Tree, faults: seq<Fault>, p: nat)
    requires p < |faults|
    ensures p in Joined(tree, faults, |faults|) <==> Judge(tree, Joined(tree, faults, p), faults[p]).Ok?
  {
    JoinedEarlier(tree, faults, p + 1, |faults|);
    JoinedBelow(tree, faults, p);
  }

  /** And the reason given for each other entry is the one that holds of it. */
  lemma AloneBecause(tree: Tree, faults: seq<Fault>, alone: map<nat, Why>, p: nat)
    requires ReasonsGiven(tree, faults, alone) && p in alone
    ensures p < |faults| && Because(tree, faults, p, alone[p])
  {
    JudgedBecause(tree, faults, p);
  }

  /** Each file an entry writes lines of has a region of the entry's: with `Batches.RegionHoldsOwnLines`,
      its regions hold all it writes and nothing else. */
  lemma WrittenHasRegion(tree: Tree, faults: seq<Fault>, plan: Plan, p: nat, f: Path) returns (r: Region)
    requires IsPlan(tree, faults, plan) && p in plan.regions && p < |faults|
    requires Edits(tree, faults[p], map[]).Ok? && f in Edits(tree, faults[p], map[]).value
    requires ChangeOf(tree, faults[p], f).lines != []
    ensures r in plan.regions[p] && r.file == f
  {
    var joined: map<nat, Hunks> := Joined(tree, faults, |faults|);
    JoinedOk(tree, faults, |faults|);
    assert f in joined[p] && joined[p][f].lines != [];
    r := PlacedHasRegion(tree, faults, p, f);
    assert f in TouchedBy(joined);
  }

  lemma PlacedHasRegion(tree: Tree, faults: seq<Fault>, p: nat, f: Path) returns (r: Region)
    requires var joined := Joined(tree, faults, |faults|);
             p < |faults| && p in joined && f in joined[p] && joined[p][f].lines != []
    ensures r in FileRegions(tree, faults, f, p) && r.file == f
  {
    var joined: map<nat, Hunks> := Joined(tree, faults, |faults|);
    var hs := InFile(joined, f, |faults|);
    InFileMembers(joined, f, |faults|);
    var i :| 0 <= i < |hs| && hs[i] == Placed(p, joined[p][f]);
    r := RegionAt(f, hs, Stretches(hs, 0, 0), p, i);
  }

  lemma RegionAt(f: Path, hs: seq<Placed<Line>>, stretches: seq<Stretch>, p: nat, i: nat) returns (r: Region)
    requires i < |hs| == |stretches| && hs[i].position == p && hs[i].hunk.lines != []
    ensures r in RegionsIn(f, hs, stretches, p) && r.file == f
  {
    r := Region(f, stretches[i].first + 1, stretches[i].after);
  }
}
