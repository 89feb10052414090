/** Seeding a fault by its transforms: `applied` and `seed` of tools/check-guards-fire.py. */
module Seeding {
  import opened Prelude

  // A file's path from the tree's root, normalised, as its components; [] is the root.
  type Path = seq<string>
  type Tree = map<Path, string>

  datatype Transform =
    | Replace(file: Path, anchor: string, text: string)
    | Whole(file: Path, text: string)

  datatype Refusal =
    | Missing(file: Path)
    | AlreadyHeld(file: Path)
    | Matches(file: Path, count: nat)

  // ── str.count and str.replace ──────────────────────────────────────────────

  /** Non-overlapping matches, left to right; the empty string matches at every place. */
  function Count(text: string, anchor: string): nat
    decreases |text|
  {
    if anchor == "" then |text| + 1
    else if |text| < |anchor| then 0
    else if anchor <= text then 1 + Count(text[|anchor|..], anchor)
    else Count(text[1..], anchor)
  }

  predicate Occurs(text: string, anchor: string, at: nat) {
    at + |anchor| <= |text| && text[at..at + |anchor|] == anchor
  }

  /** Two places where the anchor stands, the one behind the other's end. */
  ghost predicate OccursTwice(text: string, anchor: string) {
    exists i: nat, j: nat :: i < j && i + |anchor| <= j && Occurs(text, anchor, i) && Occurs(text, anchor, j)
  }

  ghost predicate OccursOnce(text: string, anchor: string) {
    (exists at: nat :: Occurs(text, anchor, at)) && !OccursTwice(text, anchor)
  }

  lemma OccursBehind(text: string, anchor: string, n: nat, at: nat)
    requires n <= |text|
    ensures Occurs(text[n..], anchor, at) <==> Occurs(text, anchor, n + at)
  {
    if n + at + |anchor| <= |text| {
      assert text[n..][at..at + |anchor|] == text[n + at..n + at + |anchor|];
    }
  }

  /** None is counted where the anchor stands nowhere, and more than one just where it stands twice. */
  lemma {:induction false} CountSays(text: string, anchor: string)
    ensures Count(text, anchor) == 0 <==> forall at: nat :: !Occurs(text, anchor, at)
    ensures Count(text, anchor) > 1 <==> OccursTwice(text, anchor)
    decreases |text|
  {
    if anchor == "" {
      assert Occurs(text, anchor, 0);
      assert text != "" ==> Occurs(text, anchor, 0) && Occurs(text, anchor, 1);
    } else if |text| < |anchor| {
    } else if anchor <= text {
      var n := |anchor|;
      CountSays(text[n..], anchor);
      forall at: nat ensures Occurs(text[n..], anchor, at) <==> Occurs(text, anchor, n + at) {
        OccursBehind(text, anchor, n, at);
      }
      assert Occurs(text, anchor, 0);
      if OccursTwice(text, anchor) {
        var i: nat, j: nat :| i < j && i + |anchor| <= j && Occurs(text, anchor, i) && Occurs(text, anchor, j);
        assert Occurs(text[n..], anchor, j - n);
      }
    } else {
      CountSays(text[1..], anchor);
      CountShifted(text, anchor);
    }
  }

  /** Where it doesn't stand at the start, it stands just where it does behind the first character. */
  lemma CountShifted(text: string, anchor: string)
    requires |anchor| <= |text| && text != "" && !(anchor <= text)
    ensures (forall at: nat :: !Occurs(text, anchor, at)) <==> forall at: nat :: !Occurs(text[1..], anchor, at)
    ensures OccursTwice(text, anchor) <==> OccursTwice(text[1..], anchor)
  {
    assert !Occurs(text, anchor, 0);
    forall at: nat ensures Occurs(text[1..], anchor, at) <==> Occurs(text, anchor, 1 + at) {
      OccursBehind(text, anchor, 1, at);
    }
    if OccursTwice(text, anchor) {
      var i: nat, j: nat :| i < j && i + |anchor| <= j && Occurs(text, anchor, i) && Occurs(text, anchor, j);
      assert Occurs(text[1..], anchor, i - 1) && Occurs(text[1..], anchor, j - 1);
    }
    if OccursTwice(text[1..], anchor) {
      var i: nat, j: nat :| i < j && i + |anchor| <= j && Occurs(text[1..], anchor, i) && Occurs(text[1..], anchor, j);
      assert Occurs(text, anchor, 1 + i) && Occurs(text, anchor, 1 + j);
    }
    if exists at: nat :: Occurs(text, anchor, at) {
      var at: nat :| Occurs(text, anchor, at);
      assert Occurs(text[1..], anchor, at - 1);
    }
  }

  function ReplaceAll(text: string, anchor: string, with: string): string
    decreases |text|
  {
    if anchor == "" then with + (if text == "" then "" else [text[0]] + ReplaceAll(text[1..], anchor, with))
    else if |text| < |anchor| then text
    else if anchor <= text then with + ReplaceAll(text[|anchor|..], anchor, with)
    else [text[0]] + ReplaceAll(text[1..], anchor, with)
  }

  lemma {:induction false} ReplaceNone(text: string, anchor: string, with: string)
    requires Count(text, anchor) == 0
    ensures ReplaceAll(text, anchor, with) == text
    decreases |text|
  {
    if |text| >= |anchor| {
      ReplaceNone(text[1..], anchor, with);
    }
  }

  /** An anchor that matches once splits its text in two, and the replacement goes between. */
  lemma {:induction false} ReplaceOnce(text: string, anchor: string, with: string) returns (at: nat)
    requires Count(text, anchor) == 1
    ensures at + |anchor| <= |text| && text[at..at + |anchor|] == anchor
    ensures ReplaceAll(text, anchor, with) == text[..at] + with + text[at + |anchor|..]
    decreases |text|
  {
    if anchor == "" {
      at := 0;
    } else if anchor <= text {
      at := 0;
      ReplaceNone(text[|anchor|..], anchor, with);
    } else {
      var rest := ReplaceOnce(text[1..], anchor, with);
      at := rest + 1;
      assert text[at..at + |anchor|] == text[1..][rest..rest + |anchor|];
      assert text[..at] == [text[0]] + text[1..][..rest];
      assert text[at + |anchor|..] == text[1..][rest + |anchor|..];
    }
  }

  function Applied(text: string, item: Transform): string {
    match item
    case Whole(_, whole) => whole
    case Replace(_, anchor, with) => ReplaceAll(text, anchor, with)
  }

  // ── seed ───────────────────────────────────────────────────────────────────

  /** Why `item` can't be made on `text`, if it can't. */
  function Refuses(text: string, item: Transform): Option<Refusal> {
    match item
    case Whole(file, whole) => if text == whole then Some(AlreadyHeld(file)) else None
    case Replace(file, anchor, _) =>
      if Count(text, anchor) != 1 then Some(Matches(file, Count(text, anchor))) else None
  }

  /** The text of `file` as the edits so far leave it. */
  function Text(tree: Tree, edited: Tree, file: Path): Option<string> {
    if file in edited then Some(edited[file]) else if file in tree then Some(tree[file]) else None
  }

  /** The edits after the rest of a fault's transforms, or why one of them can't be made. */
  function Edits(tree: Tree, items: seq<Transform>, edited: Tree): Result<Tree, Refusal> {
    if items == [] then Ok(edited)
    else
      match Text(tree, edited, items[0].file)
      case None => Err(Missing(items[0].file))
      case Some(text) =>
        match Refuses(text, items[0])
        case Some(why) => Err(why)
        case None => Edits(tree, items[1..], edited[items[0].file := Applied(text, items[0])])
  }

  function Files(items: seq<Transform>): set<Path> {
    set i | 0 <= i < |items| :: items[i].file
  }

  function Held(tree: Tree, f: Path): Option<string> {
    if f in tree then Some(tree[f]) else None
  }

  /** The text of a file once the first `n` transforms have been made, each on what the ones before it
      left there. */
  function TextAfter(tree: Tree, items: seq<Transform>, n: nat, f: Path): Option<string>
    requires n <= |items|
  {
    if n == 0 then Held(tree, f)
    else
      var was := TextAfter(tree, items, n - 1, f);
      if items[n - 1].file == f && was.Some? then Some(Applied(was.value, items[n - 1])) else was
  }

  /** A transform can be made where its file is there, and its anchor stands in it once, or the whole
      text it writes isn't what's there. */
  ghost predicate CanMake(text: Option<string>, item: Transform) {
    text.Some? && if item.Whole? then text.value != item.text else OccursOnce(text.value, item.anchor)
  }

  ghost predicate Makes(tree: Tree, items: seq<Transform>, i: nat)
    requires i < |items|
  {
    CanMake(TextAfter(tree, items, i, items[i].file), items[i])
  }

  /** What's said of a transform that can't be made. */
  function Refused(text: Option<string>, item: Transform): Refusal {
    if text.None? then Missing(item.file)
    else if item.Whole? then AlreadyHeld(item.file)
    else Matches(item.file, Count(text.value, item.anchor))
  }

  /** Why the first transform that can't be made can't be. */
  ghost predicate FirstRefused(tree: Tree, items: seq<Transform>, i: nat, why: Refusal) {
    && i < |items| && !Makes(tree, items, i) && (forall j :: 0 <= j < i ==> Makes(tree, items, j))
    && why == Refused(TextAfter(tree, items, i, items[i].file), items[i])
  }

  lemma RefusesSays(text: string, item: Transform)
    ensures Refuses(text, item).None? <==> CanMake(Some(text), item)
  {
    if item.Replace? {
      CountSays(text, item.anchor);
    }
  }

  /** What the edits from the `i`-th transform on say, on what those before it left. */
  ghost predicate EditsSay(tree: Tree, items: seq<Transform>, i: nat, out: Result<Tree, Refusal>) {
    if out.Ok? then (forall j :: i <= j < |items| ==> Makes(tree, items, j))
                    && forall f :: Text(tree, out.value, f) == TextAfter(tree, items, |items|, f)
    else exists k: nat :: i <= k < |items| && FirstRefused(tree, items, k, out.error)
  }

  lemma {:induction false} EditsFrom(tree: Tree, items: seq<Transform>, i: nat, edited: Tree)
    requires i <= |items| && forall f :: Text(tree, edited, f) == TextAfter(tree, items, i, f)
    requires forall j :: 0 <= j < i ==> Makes(tree, items, j)
    ensures EditsSay(tree, items, i, Edits(tree, items[i..], edited))
    decreases |items| - i
  {
    if i < |items| {
      var item := items[i];
      var text := Text(tree, edited, item.file);
      assert items[i..][0] == item && items[i..][1..] == items[i + 1..];
      if text.Some? {
        RefusesSays(text.value, item);
      }
      if text.Some? && Refuses(text.value, item).None? {
        EditsFrom(tree, items, i + 1, edited[item.file := Applied(text.value, item)]);
      } else {
        assert FirstRefused(tree, items, i, Edits(tree, items[i..], edited).error);
      }
    } else {
      assert items[i..] == [];
    }
  }

  /** `seed`: make every transform or none. `dry` only checks. */
  method Seed(tree: Tree, items: seq<Transform>, dry: bool) returns (after: Tree, why: Option<Refusal>)
    ensures var edits := Edits(tree, items, map[]);
            if edits.Err? then why == Some(edits.error) && after == tree
            else why == None && after == if dry then tree else tree + edits.value
    ensures why == None <==> forall i :: 0 <= i < |items| ==> Makes(tree, items, i)
    ensures why.Some? ==> exists i: nat :: FirstRefused(tree, items, i, why.value)
    ensures if why == None && !dry then forall f :: Held(after, f) == TextAfter(tree, items, |items|, f)
            else after == tree
  {
    EditsFrom(tree, items, 0, map[]);
    assert items[0..] == items;
    var edited: Tree := map[];
    for i := 0 to |items|
      invariant Edits(tree, items, map[]) == Edits(tree, items[i..], edited)
    {
      var item := items[i];
      var text := Text(tree, edited, item.file);
      if text.None? {
        return tree, Some(Missing(item.file));
      }
      why := Refuses(text.value, item);
      if why.Some? {
        return tree, why;
      }
      edited := edited[item.file := Applied(text.value, item)];
      assert items[i..][1..] == items[i + 1..];
    }
    return if dry then tree else tree + edited, None;
  }

  /** A fault edits the files its transforms name and no other, and each was there. */
  lemma {:induction false} EditsFiles(tree: Tree, items: seq<Transform>, edited: Tree)
    requires Edits(tree, items, edited).Ok? && edited.Keys <= tree.Keys
    ensures Edits(tree, items, edited).value.Keys == edited.Keys + Files(items)
    ensures Files(items) <= tree.Keys
  {
    if items != [] {
      var text := Text(tree, edited, items[0].file).value;
      EditsFiles(tree, items[1..], edited[items[0].file := Applied(text, items[0])]);
      FilesCons(items);
    }
  }

  lemma FilesCons(items: seq<Transform>)
    requires items != []
    ensures Files(items) == {items[0].file} + Files(items[1..])
  {
    assert forall i :: 1 <= i < |items| ==> items[i] == items[1..][i - 1];
    forall f | f in Files(items) ensures f in {items[0].file} + Files(items[1..]) {
      var i :| 0 <= i < |items| && items[i].file == f;
      if i > 0 {
        assert items[1..][i - 1].file == f;
      }
    }
  }

  /** Seeding reads only the files it edits. */
  lemma {:induction false} EditsLocal(tree: Tree, other: Tree, items: seq<Transform>, edited: Tree)
    requires forall f :: f in Files(items) ==> Text(tree, edited, f) == Text(other, edited, f)
    ensures Edits(tree, items, edited) == Edits(other, items, edited)
  {
    if items != [] {
      FilesCons(items);
      assert items[0].file in Files(items);
      var text := Text(tree, edited, items[0].file);
      if text.Some? && Refuses(text.value, items[0]).None? {
        var edited' := edited[items[0].file := Applied(text.value, items[0])];
        forall f | f in Files(items[1..]) ensures Text(tree, edited', f) == Text(other, edited', f) {
          assert f in Files(items);
          assert Text(tree, edited, f) == Text(other, edited, f);
        }
        EditsLocal(tree, other, items[1..], edited');
      }
    }
  }

  // ── seeding several entries into one tree ──────────────────────────────────

  type Fault = seq<Transform>

  function Seeded(tree: Tree, fault: Fault): Result<Tree, Refusal> {
    match Edits(tree, fault, map[])
    case Err(why) => Err(why)
    case Ok(edited) => Ok(tree + edited)
  }

  function SeedAll(tree: Tree, faults: seq<Fault>): Result<Tree, Refusal>
    decreases |faults|
  {
    if faults == [] then Ok(tree)
    else match Seeded(tree, faults[0])
      case Err(why) => Err(why)
      case Ok(next) => SeedAll(next, faults[1..])
  }

  ghost predicate Disjoint(faults: seq<Fault>) {
    forall i, j :: 0 <= i < j < |faults| ==> Files(faults[i]) !! Files(faults[j])
  }

  ghost predicate AllSeedable(tree: Tree, faults: seq<Fault>) {
    forall i :: 0 <= i < |faults| ==> Seeded(tree, faults[i]).Ok?
  }

  /** `after` holds a fault's files as that fault alone leaves them in `tree`. */
  ghost predicate AsAlone(tree: Tree, fault: Fault, after: Tree) {
    match Seeded(tree, fault)
    case Err(_) => false
    case Ok(alone) => forall f :: f in Files(fault) ==> f in after && f in alone && after[f] == alone[f]
  }

  ghost predicate Untouched(faults: seq<Fault>, f: Path) {
    forall i :: 0 <= i < |faults| ==> f !in Files(faults[i])
  }

  /** What a tree seeded with every fault holds: each fault's files as that fault alone leaves
      them, and every other file as it was. */
  ghost predicate HoldsEach(tree: Tree, faults: seq<Fault>, after: Tree) {
    && after.Keys == tree.Keys
    && (forall i :: 0 <= i < |faults| ==> AsAlone(tree, faults[i], after))
    && (forall f :: f in tree && Untouched(faults, f) ==> after[f] == tree[f])
  }

  lemma SeededLeavesOthers(tree: Tree, fault: Fault)
    requires Seeded(tree, fault).Ok?
    ensures Seeded(tree, fault).value.Keys == tree.Keys && Files(fault) <= tree.Keys
    ensures forall f :: f in tree && f !in Files(fault) ==> Seeded(tree, fault).value[f] == tree[f]
  {
    EditsFiles(tree, fault, map[]);
  }

  /** A fault seeds the same edits into any two trees that agree on its files. */
  lemma SeededSame(tree: Tree, other: Tree, fault: Fault, after: Tree)
    requires tree.Keys == other.Keys
    requires forall f :: f in Files(fault) && f in tree ==> tree[f] == other[f]
    ensures Seeded(tree, fault).Ok? == Seeded(other, fault).Ok?
    ensures AsAlone(tree, fault, after) == AsAlone(other, fault, after)
  {
    EditsLocal(tree, other, fault, map[]);
    if Seeded(tree, fault).Ok? {
      EditsFiles(tree, fault, map[]);
    }
  }

  /** Entries that seed different files never refuse each other's edits, in any order, and leave
      each file as its own entry alone would. */
  lemma {:induction false} DisjointSeedsTogether(tree: Tree, faults: seq<Fault>)
    requires Disjoint(faults) && AllSeedable(tree, faults)
    ensures SeedAll(tree, faults).Ok? && HoldsEach(tree, faults, SeedAll(tree, faults).value)
    decreases |faults|
  {
    if faults != [] {
      var (first, rest) := (faults[0], faults[1..]);
      var next := Seeded(tree, first).value;
      SeededLeavesOthers(tree, first);
      forall i | 0 <= i < |rest|
        ensures Seeded(next, rest[i]).Ok?
        ensures forall t :: AsAlone(tree, rest[i], t) == AsAlone(next, rest[i], t)
      {
        assert rest[i] == faults[i + 1] && Files(first) !! Files(faults[i + 1]);
        forall t ensures AsAlone(tree, rest[i], t) == AsAlone(next, rest[i], t) {
          SeededSame(tree, next, rest[i], t);
        }
        SeededSame(tree, next, rest[i], tree);
      }
      DisjointSeedsTogether(next, rest);
      var after := SeedAll(next, rest).value;
      forall f | f in Files(first) ensures f in after && after[f] == next[f] {
        assert forall k :: 0 <= k < |rest| ==> rest[k] == faults[k + 1];
        assert Untouched(rest, f);
      }
      assert AsAlone(tree, first, after);
      assert forall i :: 1 <= i < |faults| ==> faults[i] == rest[i - 1];
      forall f | f in tree && Untouched(faults, f) ensures after[f] == tree[f] {
        assert f !in Files(first) && Untouched(rest, f);
      }
    }
  }

  /** What the seeded tree holds leaves no choice of tree. */
  lemma HoldsEachUnique(tree: Tree, faults: seq<Fault>, a: Tree, b: Tree)
    requires HoldsEach(tree, faults, a) && HoldsEach(tree, faults, b)
    ensures a == b
  {
    forall f | f in tree ensures a[f] == b[f] {
      if i :| 0 <= i < |faults| && f in Files(faults[i]) {
        assert AsAlone(tree, faults[i], a) && AsAlone(tree, faults[i], b);
      } else {
        assert Untouched(faults, f);
      }
    }
  }

  lemma HoldsEachShuffled(tree: Tree, faults: seq<Fault>, shuffled: seq<Fault>, after: Tree)
    requires HoldsEach(tree, shuffled, after) && multiset(faults) == multiset(shuffled)
    ensures HoldsEach(tree, faults, after)
  {
    forall i | 0 <= i < |faults| ensures AsAlone(tree, faults[i], after) {
      assert faults[i] in multiset(shuffled);
    }
    forall f | f in tree && Untouched(faults, f) ensures Untouched(shuffled, f) {
      forall j | 0 <= j < |shuffled| ensures f !in Files(shuffled[j]) {
        assert shuffled[j] in multiset(faults);
      }
    }
  }

  /** The order entries are seeded in changes nothing. */
  lemma SeedOrderIrrelevant(tree: Tree, faults: seq<Fault>, shuffled: seq<Fault>)
    requires Disjoint(faults) && Disjoint(shuffled) && AllSeedable(tree, faults)
    requires multiset(faults) == multiset(shuffled)
    ensures SeedAll(tree, faults) == SeedAll(tree, shuffled)
  {
    forall i | 0 <= i < |shuffled| ensures Seeded(tree, shuffled[i]).Ok? {
      assert shuffled[i] in multiset(faults);
    }
    DisjointSeedsTogether(tree, faults);
    DisjointSeedsTogether(tree, shuffled);
    HoldsEachShuffled(tree, faults, shuffled, SeedAll(tree, shuffled).value);
    HoldsEachUnique(tree, faults, SeedAll(tree, faults).value, SeedAll(tree, shuffled).value);
  }
}
