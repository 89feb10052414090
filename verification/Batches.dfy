/** Lint batches planned on paper: `plan_batch` of tools/check-guards-fire.py. */
module Batches {
  import opened Prelude
  import opened Sorting
  import opened Seeding
  import opened Texts
  import opened LineEdits

  type Hunks = map<Path, Hunk<Line>>

  /** Lines `first` to `last` of a file, from 1. */
  datatype Region = Region(file: Path, first: nat, last: nat)

  datatype Why = Stale(refusal: Refusal) | WritesNothing | Clashes

  /** The text to write to each merged file; by position in the batch, where each entry's lines
      stand in those texts; and for the entries left out, the reason. */
  datatype Plan = Plan(texts: Tree, regions: map<nat, set<Region>>, alone: map<nat, Why>)

  // ── who joins ──────────────────────────────────────────────────────────────

  function LinesOf(tree: Tree, f: Path): seq<Line> {
    if f in tree then SplitLines(tree[f]) else []
  }

  /** What an entry's edits change in each file. */
  function HunksOf(tree: Tree, edited: Tree): Hunks {
    map f | f in edited :: ChangedLines(LinesOf(tree, f), SplitLines(edited[f]))
  }

  predicate Overlap<T>(a: Hunk<T>, b: Hunk<T>) {
    a.start < b.end && b.start < a.end
  }

  predicate Clash(a: Hunks, b: Hunks) {
    exists f :: f in a && f in b && Overlap(a[f], b[f])
  }

  predicate WritesLine(hunks: Hunks) {
    exists f :: f in hunks && hunks[f].lines != []
  }

  /** Whether a fault joins the entries already in: its hunks, or why not. */
  function Judge(tree: Tree, joined: map<nat, Hunks>, fault: Fault): Result<Hunks, Why> {
    match Edits(tree, fault, map[])
    case Err(refusal) => Err(Stale(refusal))
    case Ok(edited) =>
      var hunks := HunksOf(tree, edited);
      if !WritesLine(hunks) then Err(WritesNothing)
      else if exists p :: p in joined && Clash(joined[p], hunks) then Err(Clashes)
      else Ok(hunks)
  }

  /** The entries that joined among the first `n`, each with its hunks. */
  function Joined(tree: Tree, faults: seq<Fault>, n: nat): map<nat, Hunks>
    requires n <= |faults|
  {
    if n == 0 then map[]
    else
      var before := Joined(tree, faults, n - 1);
      Admit(before, n - 1, Judge(tree, before, faults[n - 1]))
  }

  /** The entries that joined once entry `p` has been judged. */
  function Admit(joined: map<nat, Hunks>, p: nat, judged: Result<Hunks, Why>): map<nat, Hunks> {
    match judged
    case Ok(hunks) => joined[p := hunks]
    case Err(_) => joined
  }

  ghost predicate OwnHunks(tree: Tree, fault: Fault, hunks: Hunks) {
    match Edits(tree, fault, map[])
    case Ok(edited) => hunks == HunksOf(tree, edited) && WritesLine(hunks)
    case Err(_) => false
  }

  lemma JoinedOk(tree: Tree, faults: seq<Fault>, n: nat)
    requires n <= |faults|
    ensures forall p :: p in Joined(tree, faults, n) ==> p < n && OwnHunks(tree, faults[p], Joined(tree, faults, n)[p])
  {
    forall p | p in Joined(tree, faults, n) ensures p < n && OwnHunks(tree, faults[p], Joined(tree, faults, n)[p]) {
      JoinedOwn(tree, faults, n, p);
    }
  }

  lemma {:induction false} JoinedOwn(tree: Tree, faults: seq<Fault>, n: nat, p: nat)
    requires n <= |faults| && p in Joined(tree, faults, n)
    ensures p < n && OwnHunks(tree, faults[p], Joined(tree, faults, n)[p])
  {
    var before := Joined(tree, faults, n - 1);
    var judged := Judge(tree, before, faults[n - 1]);
    JoinedBelow(tree, faults, n - 1);
    Admitted(before, n - 1, judged, p);
    if p == n - 1 {
      JudgeOwn(tree, before, faults[n - 1]);
    } else {
      JoinedOwn(tree, faults, n - 1, p);
    }
  }

  lemma Admitted(joined: map<nat, Hunks>, n: nat, judged: Result<Hunks, Why>, p: nat)
    requires p in Admit(joined, n, judged) && n !in joined
    ensures if p == n then judged.Ok? && Admit(joined, n, judged)[p] == judged.value
            else p in joined && Admit(joined, n, judged)[p] == joined[p]
  {
  }

  lemma JudgeOwn(tree: Tree, joined: map<nat, Hunks>, fault: Fault)
    ensures var judged := Judge(tree, joined, fault); judged.Ok? ==> OwnHunks(tree, fault, judged.value)
  {
  }

  /** Hunks, if there are any, that overlap no joined entry's. */
  ghost predicate ApartFrom(joined: map<nat, Hunks>, judged: Result<Hunks, Why>) {
    judged.Ok? ==> forall p :: p in joined ==> !Clash(joined[p], judged.value)
  }

  lemma JudgeApart(tree: Tree, joined: map<nat, Hunks>, fault: Fault)
    ensures ApartFrom(joined, Judge(tree, joined, fault))
  {
  }

  ghost predicate AllApart(joined: map<nat, Hunks>) {
    forall p, q :: p in joined && q in joined && p != q ==> !Clash(joined[p], joined[q])
  }

  lemma AdmitApart(joined: map<nat, Hunks>, p: nat, judged: Result<Hunks, Why>)
    requires AllApart(joined) && p !in joined && ApartFrom(joined, judged)
    ensures AllApart(Admit(joined, p, judged))
  {
    if judged.Ok? {
      forall q | q in joined ensures !Clash(judged.value, joined[q]) {
        ClashBothWays(joined[q], judged.value);
      }
    }
  }

  lemma {:induction false} JoinedBelow(tree: Tree, faults: seq<Fault>, n: nat)
    requires n <= |faults|
    ensures forall p :: p in Joined(tree, faults, n) ==> p < n
  {
    if n > 0 {
      JoinedBelow(tree, faults, n - 1);
    }
  }

  /** No two joined entries change overlapping lines. */
  lemma {:induction false} JoinedApart(tree: Tree, faults: seq<Fault>, n: nat)
    requires n <= |faults|
    ensures AllApart(Joined(tree, faults, n))
  {
    if n > 0 {
      var before := Joined(tree, faults, n - 1);
      JoinedApart(tree, faults, n - 1);
      JoinedBelow(tree, faults, n - 1);
      JudgeApart(tree, before, faults[n - 1]);
      AdmitApart(before, n - 1, Judge(tree, before, faults[n - 1]));
    }
  }

  lemma ClashBothWays(a: Hunks, b: Hunks)
    ensures Clash(a, b) == Clash(b, a)
  {
  }

  // ── one file's hunks, in order ─────────────────────────────────────────────

  /** The joined entries' hunks in file `f`, by position. */
  function Collect(joined: map<nat, Hunks>, f: Path, n: nat): seq<Placed<Line>> {
    if n == 0 then []
    else
      var before := Collect(joined, f, n - 1);
      if n - 1 in joined && f in joined[n - 1] then before + [Placed(n - 1, joined[n - 1][f])] else before
  }

  /** By where a hunk starts, then where it ends, then its entry. */
  predicate Before(a: Placed<Line>, b: Placed<Line>) {
    || a.hunk.start < b.hunk.start
    || (a.hunk.start == b.hunk.start &&
        (a.hunk.end < b.hunk.end || (a.hunk.end == b.hunk.end && a.position <= b.position)))
  }

  function InFile(joined: map<nat, Hunks>, f: Path, n: nat): (r: seq<Placed<Line>>)
    ensures multiset(r) == multiset(Collect(joined, f, n))
    ensures |r| == |Collect(joined, f, n)|
    ensures forall i, j :: 0 <= i < j < |r| ==> Before(r[i], r[j])
  {
    var r := SortBy((a: Placed<Line>, b: Placed<Line>) => Before(a, b), Collect(joined, f, n));
    assert |multiset(r)| == |multiset(Collect(joined, f, n))|;
    r
  }

  ghost predicate Places(joined: map<nat, Hunks>, f: Path, h: Placed<Line>) {
    h.position in joined && f in joined[h.position] && h.hunk == joined[h.position][f]
  }

  lemma {:induction false} Collected(joined: map<nat, Hunks>, f: Path, n: nat)
    ensures forall h :: h in Collect(joined, f, n) <==> Places(joined, f, h) && h.position < n
    ensures forall i, j :: 0 <= i < j < |Collect(joined, f, n)| ==>
                             Collect(joined, f, n)[i].position < Collect(joined, f, n)[j].position
  {
    if n > 0 {
      Collected(joined, f, n - 1);
      var before := Collect(joined, f, n - 1);
      assert forall i :: 0 <= i < |before| ==> before[i] in before;
    }
  }

  lemma InFileMembers(joined: map<nat, Hunks>, f: Path, n: nat)
    ensures forall i :: 0 <= i < |InFile(joined, f, n)| ==>
                          Places(joined, f, InFile(joined, f, n)[i]) && InFile(joined, f, n)[i].position < n
    ensures forall p: nat :: p < n && p in joined && f in joined[p] ==> Placed(p, joined[p][f]) in InFile(joined, f, n)
  {
    var (r, c) := (InFile(joined, f, n), Collect(joined, f, n));
    Collected(joined, f, n);
    forall i | 0 <= i < |r| ensures r[i] in c {
      assert r[i] in multiset(r);
    }
    forall p: nat | p < n && p in joined && f in joined[p] ensures Placed(p, joined[p][f]) in r {
      assert Places(joined, f, Placed(p, joined[p][f]));
      assert Placed(p, joined[p][f]) in multiset(c);
    }
  }

  lemma InFileDistinct(joined: map<nat, Hunks>, f: Path, n: nat, i: nat, j: nat)
    requires i < j < |InFile(joined, f, n)|
    ensures InFile(joined, f, n)[i].position != InFile(joined, f, n)[j].position
  {
    var (r, c) := (InFile(joined, f, n), Collect(joined, f, n));
    Collected(joined, f, n);
    InFileMembers(joined, f, n);
    if r[i].position == r[j].position {
      assert r[i] == r[j];
      RepeatCountsTwice(r, i, j);
      OnceIn(c, r[i]);
    }
  }

  lemma {:induction false} OnceIn(c: seq<Placed<Line>>, x: Placed<Line>)
    requires forall i, j :: 0 <= i < j < |c| ==> c[i].position < c[j].position
    ensures multiset(c)[x] <= 1
  {
    if c != [] {
      var k := |c| - 1;
      assert c == c[..k] + [c[k]];
      OnceIn(c[..k], x);
      if c[k] == x {
        assert x !in c[..k];
      }
    }
  }

  ghost predicate FitIn(lines: seq<Line>, hs: seq<Placed<Line>>) {
    forall i :: 0 <= i < |hs| ==> InBounds(lines, hs[i].hunk)
  }

  ghost predicate NoOverlap(hs: seq<Placed<Line>>) {
    forall i, j :: 0 <= i < j < |hs| ==> Before(hs[i], hs[j]) && !Overlap(hs[i].hunk, hs[j].hunk)
  }

  /** Hunks that don't overlap, in order, never start before the one ahead has ended: copying up
      to each one's start never runs backwards. */
  lemma {:induction false} OrderedIsChain(lines: seq<Line>, hs: seq<Placed<Line>>, at: nat)
    requires FitIn(lines, hs) && NoOverlap(hs) && at <= |lines|
    requires forall i :: 0 <= i < |hs| ==> at <= hs[i].hunk.start
    ensures Chain(lines, hs, at)
  {
    if hs != [] {
      var rest := hs[1..];
      assert forall i :: 0 <= i < |rest| ==> rest[i] == hs[i + 1];
      forall i | 0 <= i < |rest| ensures hs[0].hunk.end <= rest[i].hunk.start {
        assert Before(hs[0], hs[i + 1]) && !Overlap(hs[0].hunk, hs[i + 1].hunk);
        assert InBounds(lines, hs[i + 1].hunk);
      }
      OrderedIsChain(lines, rest, hs[0].hunk.end);
    }
  }

  lemma FileChain(tree: Tree, faults: seq<Fault>, n: nat, f: Path)
    requires n <= |faults|
    ensures Chain(LinesOf(tree, f), InFile(Joined(tree, faults, n), f, n), 0)
  {
    var joined := Joined(tree, faults, n);
    var hs := InFile(joined, f, n);
    JoinedOk(tree, faults, n);
    JoinedApart(tree, faults, n);
    InFileMembers(joined, f, n);
    forall i | 0 <= i < |hs| ensures InBounds(LinesOf(tree, f), hs[i].hunk) {
      HunkIsChange(tree, faults[hs[i].position], joined[hs[i].position], f);
    }
    forall i, j | 0 <= i < j < |hs| ensures Before(hs[i], hs[j]) && !Overlap(hs[i].hunk, hs[j].hunk) {
      InFileDistinct(joined, f, n, i, j);
      assert Places(joined, f, hs[i]) && Places(joined, f, hs[j]);
      assert !Clash(joined[hs[i].position], joined[hs[j].position]);
    }
    OrderedIsChain(LinesOf(tree, f), hs, 0);
  }

  /** A joined entry's hunk is what its own edits change. */
  lemma HunkIsChange(tree: Tree, fault: Fault, hunks: Hunks, f: Path)
    requires OwnHunks(tree, fault, hunks) && f in hunks
    ensures Edits(tree, fault, map[]).Ok? && f in Edits(tree, fault, map[]).value
    ensures hunks[f] == ChangedLines(LinesOf(tree, f), SplitLines(Edits(tree, fault, map[]).value[f]))
    ensures InBounds(LinesOf(tree, f), hunks[f])
  {
    ChangeIsExact(LinesOf(tree, f), SplitLines(Edits(tree, fault, map[]).value[f]));
  }

  // ── the plan ───────────────────────────────────────────────────────────────

  /** The files the joined entries change. */
  function TouchedBy(joined: map<nat, Hunks>): set<Path> {
    set p, f | p in joined && f in joined[p] :: f
  }

  /** Entry `p`'s lines in file `f`, of hunks `hs` landing at `stretches`. */
  function RegionsIn(f: Path, hs: seq<Placed<Line>>, stretches: seq<Stretch>, p: nat): set<Region>
    requires |hs| == |stretches|
  {
    set i | 0 <= i < |hs| && hs[i].position == p && hs[i].hunk.lines != [] ::
      Region(f, stretches[i].first + 1, stretches[i].after)
  }

  ghost function FileText(tree: Tree, faults: seq<Fault>, f: Path): seq<Line> {
    FileChain(tree, faults, |faults|, f);
    Merged(LinesOf(tree, f), InFile(Joined(tree, faults, |faults|), f, |faults|), 0)
  }

  ghost function FileRegions(tree: Tree, faults: seq<Fault>, f: Path, p: nat): set<Region> {
    var hs := InFile(Joined(tree, faults, |faults|), f, |faults|);
    RegionsIn(f, hs, Stretches(hs, 0, 0), p)
  }

  ghost function AllRegions(tree: Tree, faults: seq<Fault>, files: set<Path>, p: nat): set<Region> {
    set f, r | f in files && r in FileRegions(tree, faults, f, p) :: r
  }

  /** Each merged file's text is the joined entries' edits of it merged. */
  ghost predicate TextsMerged(tree: Tree, faults: seq<Fault>, texts: Tree, files: set<Path>) {
    texts.Keys == files && forall f :: f in texts ==> texts[f] == Join(FileText(tree, faults, f))
  }

  /** Each joined entry's regions are where its own lines landed. */
  ghost predicate RegionsNoted(tree: Tree, faults: seq<Fault>, regions: map<nat, set<Region>>, files: set<Path>) {
    && regions.Keys == Joined(tree, faults, |faults|).Keys
    && forall p :: p in regions ==> regions[p] == AllRegions(tree, faults, files, p)
  }

  ghost predicate OthersAlone(joined: map<nat, Hunks>, n: nat, alone: set<nat>) {
    forall p: nat :: p in alone <==> p < n && p !in joined
  }

  ghost predicate IsPlan(tree: Tree, faults: seq<Fault>, plan: Plan) {
    var joined := Joined(tree, faults, |faults|);
    && TextsMerged(tree, faults, plan.texts, TouchedBy(joined))
    && RegionsNoted(tree, faults, plan.regions, TouchedBy(joined))
    && OthersAlone(joined, |faults|, plan.alone.Keys)
  }

  /** Each entry left out has the reason it was judged to have. */
  ghost predicate ReasonsGiven(tree: Tree, faults: seq<Fault>, alone: map<nat, Why>) {
    forall p :: p in alone ==> p < |faults| && Judge(tree, Joined(tree, faults, p), faults[p]) == Err(alone[p])
  }

  method JoinEach(tree: Tree, faults: seq<Fault>) returns (joined: map<nat, Hunks>, alone: map<nat, Why>)
    ensures joined == Joined(tree, faults, |faults|)
    ensures OthersAlone(joined, |faults|, alone.Keys) && ReasonsGiven(tree, faults, alone)
  {
    joined, alone := map[], map[];
    for i := 0 to |faults|
      invariant joined == Joined(tree, faults, i) && ReasonsGiven(tree, faults, alone)
      invariant OthersAlone(joined, i, alone.Keys)
    {
      var judged := Judge(tree, joined, faults[i]);
      JoinedBelow(tree, faults, i);
      AdmitAlone(joined, i, judged, alone.Keys);
      match judged
      case Err(why) => alone := alone[i := why];
      case Ok(hunks) => joined := joined[i := hunks];
    }
  }

  lemma AdmitAlone(joined: map<nat, Hunks>, i: nat, judged: Result<Hunks, Why>, alone: set<nat>)
    requires OthersAlone(joined, i, alone) && forall p :: p in joined ==> p < i
    ensures OthersAlone(Admit(joined, i, judged), i + 1, if judged.Err? then alone + {i} else alone)
  {
  }

  method PlanBatch(tree: Tree, faults: seq<Fault>) returns (plan: Plan)
    ensures IsPlan(tree, faults, plan) && ReasonsGiven(tree, faults, plan.alone)
  {
    var joined, alone := JoinEach(tree, faults);
    var all := TouchedBy(joined);
    var texts: Tree := map[];
    var regions: map<nat, set<Region>> := map p | p in joined :: {};
    var todo := all;
    while todo != {}
      invariant todo <= all
      invariant TextsMerged(tree, faults, texts, all - todo)
      invariant RegionsNoted(tree, faults, regions, all - todo)
      decreases todo
    {
      var f :| f in todo;
      var hs := InFile(joined, f, |faults|);
      FileChain(tree, faults, |faults|, f);
      var out, stretches := Merge(LinesOf(tree, f), hs);
      assert all - (todo - {f}) == all - todo + {f};
      NoteFile(tree, faults, regions, all - todo, f, stretches);
      NoteText(tree, faults, texts, all - todo, f, out);
      texts := texts[f := Join(out)];
      regions := map p | p in regions :: regions[p] + RegionsIn(f, hs, stretches, p);
      todo := todo - {f};
    }
    assert all - todo == all;
    plan := Plan(texts, regions, alone);
  }

  lemma NoteText(tree: Tree, faults: seq<Fault>, texts: Tree, files: set<Path>, f: Path, out: seq<Line>)
    requires TextsMerged(tree, faults, texts, files) && out == FileText(tree, faults, f)
    ensures TextsMerged(tree, faults, texts[f := Join(out)], files + {f})
  {
    var more := texts[f := Join(out)];
    assert more.Keys == files + {f};
    forall g | g in more ensures more[g] == Join(FileText(tree, faults, g)) {
      assert g == f || g in texts;
    }
  }

  lemma NoteFile(tree: Tree, faults: seq<Fault>, regions: map<nat, set<Region>>, files: set<Path>, f: Path,
                 stretches: seq<Stretch>)
    requires RegionsNoted(tree, faults, regions, files)
    requires stretches == Stretches(InFile(Joined(tree, faults, |faults|), f, |faults|), 0, 0)
    ensures var hs := InFile(Joined(tree, faults, |faults|), f, |faults|);
            RegionsNoted(tree, faults, map p | p in regions :: regions[p] + RegionsIn(f, hs, stretches, p), files + {f})
  {
    forall p ensures AllRegions(tree, faults, files + {f}, p) ==
                     AllRegions(tree, faults, files, p) + FileRegions(tree, faults, f, p)
    {
      MoreRegions(tree, faults, files, f, p);
    }
  }

  lemma MoreRegions(tree: Tree, faults: seq<Fault>, files: set<Path>, f: Path, p: nat)
    ensures AllRegions(tree, faults, files + {f}, p) ==
            AllRegions(tree, faults, files, p) + FileRegions(tree, faults, f, p)
  {
  }

  // ── what the plan promises ─────────────────────────────────────────────────

  /** Every entry of the batch either has lines in it or runs alone. */
  lemma PlanPartitions(tree: Tree, faults: seq<Fault>, plan: Plan)
    requires IsPlan(tree, faults, plan)
    ensures plan.regions.Keys !! plan.alone.Keys
    ensures forall p: nat :: p < |faults| <==> p in plan.regions.Keys + plan.alone.Keys
  {
    JoinedOk(tree, faults, |faults|);
    KeysPartition(Joined(tree, faults, |faults|), |faults|, plan.regions.Keys, plan.alone.Keys);
  }

  lemma KeysPartition(joined: map<nat, Hunks>, n: nat, regions: set<nat>, alone: set<nat>)
    requires regions == joined.Keys && OthersAlone(joined, n, alone) && forall p :: p in joined ==> p < n
    ensures regions !! alone && forall p: nat :: p < n <==> p in regions + alone
  {
  }

  lemma RegionStretch(tree: Tree, faults: seq<Fault>, f: Path, p: nat, r: Region) returns (i: nat)
    requires r in FileRegions(tree, faults, f, p)
    ensures var hs := InFile(Joined(tree, faults, |faults|), f, |faults|);
            var s := Stretches(hs, 0, 0);
            && i < |hs| && hs[i].position == p && hs[i].hunk.lines != []
            && r == Region(f, s[i].first + 1, s[i].after)
            && s[i].first <= s[i].after <= |FileText(tree, faults, f)|
            && FileText(tree, faults, f)[s[i].first..s[i].after] == hs[i].hunk.lines
            && forall j :: i < j < |hs| ==> s[i].after <= s[j].first
  {
    var hs := InFile(Joined(tree, faults, |faults|), f, |faults|);
    var s := Stretches(hs, 0, 0);
    i :| 0 <= i < |hs| && hs[i].position == p && hs[i].hunk.lines != [] && r == Region(f, s[i].first + 1, s[i].after);
    FileChain(tree, faults, |faults|, f);
    StretchesHoldLines(LinesOf(tree, f), hs, 0, [], i);
    assert [] + Merged(LinesOf(tree, f), hs, 0) == FileText(tree, faults, f);
  }

  /** An entry's region of a file is exactly the lines its own fault writes there. */
  lemma RegionHoldsOwnLines(tree: Tree, faults: seq<Fault>, plan: Plan, p: nat, r: Region)
    requires IsPlan(tree, faults, plan) && p in plan.regions && r in plan.regions[p]
    ensures r.file in plan.texts && 1 <= r.first <= r.last <= |FileText(tree, faults, r.file)|
    ensures p < |faults| && Edits(tree, faults[p], map[]).Ok? && r.file in Edits(tree, faults[p], map[]).value
    ensures FileText(tree, faults, r.file)[r.first - 1..r.last] ==
            ChangedLines(LinesOf(tree, r.file), SplitLines(Edits(tree, faults[p], map[]).value[r.file])).lines
  {
    var f, i := RegionOf(tree, faults, plan, p, r);
    var joined := Joined(tree, faults, |faults|);
    InFileMembers(joined, f, |faults|);
    JoinedOk(tree, faults, |faults|);
    HunkIsChange(tree, faults[p], joined[p], f);
  }

  lemma RegionOf(tree: Tree, faults: seq<Fault>, plan: Plan, p: nat, r: Region) returns (f: Path, i: nat)
    requires IsPlan(tree, faults, plan) && p in plan.regions && r in plan.regions[p]
    ensures f in plan.texts && f == r.file
    ensures var hs := InFile(Joined(tree, faults, |faults|), f, |faults|);
            var s := Stretches(hs, 0, 0);
            && i < |hs| && hs[i].position == p && hs[i].hunk.lines != []
            && r == Region(f, s[i].first + 1, s[i].after)
            && s[i].after <= |FileText(tree, faults, f)|
            && s[i].after == s[i].first + |hs[i].hunk.lines|
            && FileText(tree, faults, f)[s[i].first..s[i].after] == hs[i].hunk.lines
            && forall j :: i < j < |hs| ==> s[i].after <= s[j].first
  {
    f := RegionFile(tree, faults, plan, p, r);
    i := RegionStretch(tree, faults, f, p, r);
  }

  lemma RegionFile(tree: Tree, faults: seq<Fault>, plan: Plan, p: nat, r: Region) returns (f: Path)
    requires IsPlan(tree, faults, plan) && p in plan.regions && r in plan.regions[p]
    ensures f in plan.texts && r in FileRegions(tree, faults, f, p)
  {
    var files := TouchedBy(Joined(tree, faults, |faults|));
    assert r in AllRegions(tree, faults, files, p);
    f :| f in files && r in FileRegions(tree, faults, f, p);
  }

  /** Two entries' regions never share a line. */
  lemma RegionsDisjoint(tree: Tree, faults: seq<Fault>, plan: Plan, p: nat, q: nat, r: Region, s: Region)
    requires IsPlan(tree, faults, plan) && p in plan.regions && q in plan.regions && p != q
    requires r in plan.regions[p] && s in plan.regions[q] && r.file == s.file
    ensures r.last < s.first || s.last < r.first
  {
    var f, i := RegionOf(tree, faults, plan, p, r);
    var g, j := RegionOf(tree, faults, plan, q, s);
    assert f == g && i != j;
  }

  /** Undo every other entry's lines in a merged file and what is left is the file as the entry's
      own seed would write it. */
  lemma UndoingOthersLeavesOwnSeed(tree: Tree, faults: seq<Fault>, p: nat, f: Path)
    requires p in Joined(tree, faults, |faults|) && f in Joined(tree, faults, |faults|)[p]
    ensures p < |faults| && Seeded(tree, faults[p]).Ok? && f in Seeded(tree, faults[p]).value
    ensures var hs := InFile(Joined(tree, faults, |faults|), f, |faults|);
            UndoOthers(FileText(tree, faults, f), LinesOf(tree, f), hs, Stretches(hs, 0, 0), 0, p) ==
            SplitLines(Seeded(tree, faults[p]).value[f])
  {
    var joined := Joined(tree, faults, |faults|);
    var hs := InFile(joined, f, |faults|);
    JoinedOk(tree, faults, |faults|);
    HunkIsChange(tree, faults[p], joined[p], f);
    FileChain(tree, faults, |faults|, f);
    InFileMembers(joined, f, |faults|);
    var i :| 0 <= i < |hs| && hs[i] == Placed(p, joined[p][f]);
    forall j | 0 <= j < |hs| && j != i ensures hs[j].position != hs[i].position {
      if j < i {
        InFileDistinct(joined, f, |faults|, j, i);
      } else {
        InFileDistinct(joined, f, |faults|, i, j);
      }
    }
    UndoLeavesOwnEdit(LinesOf(tree, f), hs, i, SplitLines(Edits(tree, faults[p], map[]).value[f]));
  }
}
