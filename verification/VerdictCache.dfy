/** The verdict cache of tools/check-guards-fire.py: `Closure`, `make_record` and `Reuse.why`. */
module VerdictCache {
  import opened Prelude
  import opened Seeding

  // ── what a command can ask ─────────────────────────────────────────────────

  datatype Kind = File | Directory | Nowhere

  /** Everything a run's verdict is a function of. */
  datatype World = World(
    files: Tree,
    history: string,
    tools: map<string, string>,
    environment: map<string, string>,
    downloads: map<string, string>)

  datatype Query =
    | Content(path: Path)
    | KindOf(path: Path)
    | Entries(path: Path)
    | Tracked
    | History
    | Package(name: string)
    | Tool(name: string)
    | Variable(name: string)
    | Download(spec: string)

  datatype Answer =
    | Holds(text: Option<string>)
    | IsKind(kind: Kind)
    | Names(names: set<string>)
    | Paths(paths: set<Path>)
    | Said(word: string)

  const LOCK: Path := ["Cargo.lock"]
  const THIS: Path := ["tools", "check-guards-fire.py"]

  /** No file lies under another, and the root isn't one. */
  ghost predicate WellFormed(files: Tree) {
    [] !in files && forall f, g :: f in files && g in files ==> !(f < g)
  }

  /** `p` is a directory that one of `paths` is in. */
  predicate InDirs(paths: set<Path>, p: Path) {
    p == [] || exists f :: f in paths && p < f
  }

  function KindIn(files: Tree, p: Path): Kind {
    if p in files then File else if InDirs(files.Keys, p) then Directory else Nowhere
  }

  /** The names directly in `where`. */
  function Children(paths: set<Path>, where: Path): set<string> {
    set f | f in paths && where < f :: f[|where|]
  }

  function Get(m: map<string, string>, k: string): Option<string> {
    if k in m then Some(m[k]) else None
  }

  /** Cargo.lock's entry for a package, under the reader `parse` of its text. */
  function PackageIn(parse: string -> map<string, string>, files: Tree, name: string): Option<string> {
    if LOCK in files then Get(parse(files[LOCK]), name) else None
  }

  function Ask(parse: string -> map<string, string>, w: World, q: Query): Answer {
    match q
    case Content(p) => Holds(if p in w.files then Some(w.files[p]) else None)
    case KindOf(p) => IsKind(KindIn(w.files, p))
    case Entries(p) => Names(Children(w.files.Keys, p))
    case Tracked => Paths(w.files.Keys)
    case History => Said(w.history)
    case Package(name) => Holds(PackageIn(parse, w.files, name))
    case Tool(name) => Holds(Get(w.tools, name))
    case Variable(name) => Holds(Get(w.environment, name))
    case Download(spec) => Holds(Get(w.downloads, spec))
  }

  /** A command is an adaptive reader: what it asks next depends on every answer so far. */
  datatype Move = Asks(query: Query) | Ends(fired: bool)

  type Command = seq<Answer> -> Move

  ghost predicate Answered(parse: string -> map<string, string>, cmd: Command, w: World, answers: seq<Answer>, i: nat)
    requires i < |answers|
  {
    cmd(answers[..i]).Asks? && answers[i] == Ask(parse, w, cmd(answers[..i]).query)
  }

  /** The command's run in `w` hears `answers`, then ends. */
  ghost predicate IsRun(parse: string -> map<string, string>, cmd: Command, w: World, answers: seq<Answer>) {
    (forall i :: 0 <= i < |answers| ==> Answered(parse, cmd, w, answers, i)) && cmd(answers).Ends?
  }

  lemma {:induction false} SameSoFar(parse: string -> map<string, string>, cmd: Command, w: World, a: seq<Answer>,
                                     b: seq<Answer>, i: nat)
    requires IsRun(parse, cmd, w, a) && IsRun(parse, cmd, w, b) && i <= |a| && i <= |b|
    ensures a[..i] == b[..i]
  {
    if i > 0 {
      SameSoFar(parse, cmd, w, a, b, i - 1);
      assert Answered(parse, cmd, w, a, i - 1) && Answered(parse, cmd, w, b, i - 1);
      assert a[..i] == a[..i - 1] + [a[i - 1]] && b[..i] == b[..i - 1] + [b[i - 1]];
    }
  }

  /** A command has one run in a world. */
  lemma OneRun(parse: string -> map<string, string>, cmd: Command, w: World, a: seq<Answer>, b: seq<Answer>)
    requires IsRun(parse, cmd, w, a) && IsRun(parse, cmd, w, b)
    ensures a == b
  {
    var (short, long) := if |a| <= |b| then (a, b) else (b, a);
    SameSoFar(parse, cmd, w, short, long, |short|);
    assert short[..|short|] == short;
    assert |short| < |long| ==> Answered(parse, cmd, w, long, |short|);
    assert long[..|long|] == long;
  }

  // ── closures ───────────────────────────────────────────────────────────────

  datatype GitUse = TreeOnly | FullHistory

  datatype Closure = Closure(
    content: set<Path>,
    present: set<Path>,
    absent: set<Path>,
    listed: set<Path>,
    git: Option<GitUse>,
    tools: set<string>,
    locked: set<string>,
    floating: set<string>,
    traced: bool)
  {
    function Union(other: Closure): Closure {
      Closure(content + other.content, present + other.present, absent + other.absent, listed + other.listed,
              if git == Some(FullHistory) || other.git == Some(FullHistory) then Some(FullHistory)
              else if git.Some? then git else other.git,
              tools + other.tools, locked + other.locked, floating + other.floating,
              traced && other.traced)
    }

    /** The part of this closure that isn't in `base`. */
    function Beyond(base: Closure): Closure {
      Closure(content - base.content, present - base.present, absent - base.absent, listed - base.listed,
              if git != base.git then git else None,
              tools - base.tools, locked - base.locked, floating - base.floating,
              traced)
    }

    function WithContent(more: set<Path>): Closure {
      this.(content := content + more)
    }
  }

  /** What a record stores for an entry: its fault run's closure beyond its command's clean one,
      and the files its fault is made from. */
  function EntryClosure(clean: Closure, fault: Closure, seeds: set<Path>): Closure {
    fault.Beyond(clean).WithContent(seeds)
  }

  /** Nothing is lost by storing the difference: the two halves make the whole again. */
  lemma RecordIsWhole(clean: Closure, fault: Closure, seeds: set<Path>)
    ensures clean.Union(EntryClosure(clean, fault, seeds)) == clean.Union(fault).WithContent(seeds)
  {
  }

  /** `cl` holds what a run that asks `q` in `then` reads. */
  ghost predicate Covers(cl: Closure, then_: Tree, q: Query) {
    match q
    case Content(p) =>
      (match KindIn(then_, p)
       case File => p in cl.content
       case Directory => p in cl.present || p in cl.listed
       case Nowhere => p in cl.absent)
    case KindOf(p) =>
      (match KindIn(then_, p)
       case File => p in cl.content || p in cl.present
       case Directory => p in cl.present || p in cl.listed
       case Nowhere => p in cl.absent)
    case Entries(p) =>
      (match KindIn(then_, p)
       case File => p in cl.content
       case Directory => p in cl.listed
       case Nowhere => p in cl.absent)
    case Tracked => cl.git.Some?
    case History => cl.git == Some(FullHistory)
    case Package(name) => name in cl.locked || LOCK in cl.content
    case Tool(name) => name in cl.tools
    case Variable(_) => true
    case Download(spec) => spec in cl.floating
  }

  lemma UnionCovers(a: Closure, b: Closure, seeds: set<Path>, then_: Tree, q: Query)
    requires Covers(a, then_, q) || Covers(b, then_, q)
    ensures Covers(a.Union(b).WithContent(seeds), then_, q)
  {
  }

  // ── why ────────────────────────────────────────────────────────────────────

  /** The caller's checkout: the paths its index lists, and what is on disk, ignored files aside.
      A run of it reads what is on disk, staged in the scratch worktree's own index. */
  datatype Checkout = Checkout(index: set<Path>, files: Tree)

  /** The paths `git ls-files` and `git ls-files --others` name. */
  function Listed(now: Checkout): set<Path> {
    now.index + now.files.Keys
  }

  /** The paths `git diff` against the commit names, and the untracked ones. */
  function Changed(then_: Tree, now: Checkout): set<Path> {
    (set p | p in then_.Keys + now.index && Held(then_, p) != (if p in now.index then Held(now.files, p) else None))
    + (now.files.Keys - now.index)
  }

  datatype Entry = Entry(table: string, fired: bool, closure: Closure)

  /** What one command has in a record: its clean closure and its entries, and the record's
      commit, environment and tools. */
  datatype Recorded = Recorded(
    commit: Tree,
    history: string,
    environment: map<string, string>,
    tools: map<string, string>,
    downloads: map<string, string>,
    clean: Closure,
    entries: map<string, Entry>)

  /** What `why` compares it with: the checkout, and this run's own commit graph, settings and
      tools. `known` is that the record's commit is in this clone. */
  datatype Present = Present(
    checkout: Checkout,
    known: bool,
    history: string,
    environment: map<string, string>,
    tools: map<string, string>,
    downloads: map<string, string>)

  datatype Reason =
    | CannotTrace
    | NoRecord
    | NoVerdict
    | NotFired
    | TableChanged
    | CommitUnknown
    | ScriptChanged
    | EnvironmentMoved
    | NoTrace
    | ReadsHistory
    | DownloadsByRange
    | ToolDiffers
    | TreeChanged(what: TreeReason)

  datatype TreeReason = TextChanged | PathGone | PathNew | EntriesMoved | TrackedMoved | LockMoved

  /** What in the tree the closure rests on changed, if anything. */
  function TreeWhy(parse: string -> map<string, string>, cl: Closure, then_: Tree, now: Checkout): Option<TreeReason> {
    if cl.content * Changed(then_, now) != {} then Some(TextChanged)
    else if exists p :: p in cl.present && p !in Listed(now) && !InDirs(Listed(now), p) then Some(PathGone)
    else if exists p :: p in cl.absent && (p in Listed(now) || InDirs(Listed(now), p)) then Some(PathNew)
    else if exists d :: d in cl.listed && Children(then_.Keys, d) != Children(Listed(now), d) then Some(EntriesMoved)
    else if cl.git == Some(TreeOnly) && Listed(now) != then_.Keys then Some(TrackedMoved)
    else if cl.locked != {} && LOCK in Changed(then_, now)
            && exists k :: k in cl.locked && PackageIn(parse, then_, k) != PackageIn(parse, now.files, k)
    then Some(LockMoved)
    else None
  }

  /** `why`: the first thing, in the code's order, that a recorded verdict fails on, if any. */
  function Why(parse: string -> map<string, string>, untraced: bool, found: Option<Recorded>,
               id: string, table: string, now: Present): Option<Reason>
  {
    if untraced then Some(CannotTrace)
    else if found.None? then Some(NoRecord)
    else if id !in found.value.entries then Some(NoVerdict)
    else
      var (record, entry) := (found.value, found.value.entries[id]);
      var cl := record.clean.Union(entry.closure);
      if !entry.fired then Some(NotFired)
      else if entry.table != table then Some(TableChanged)
      else if !now.known then Some(CommitUnknown)
      else if THIS in Changed(record.commit, now.checkout) then Some(ScriptChanged)
      else if now.environment != record.environment then Some(EnvironmentMoved)
      else if !cl.traced then Some(NoTrace)
      else if cl.git == Some(FullHistory) then Some(ReadsHistory)
      else if cl.floating != {} then Some(DownloadsByRange)
      else if exists t :: t in cl.tools && Get(now.tools, t) != Get(record.tools, t) then Some(ToolDiffers)
      else
        match TreeWhy(parse, cl, record.commit, now.checkout)
        case Some(what) => Some(TreeChanged(what))
        case None => None
  }

  lemma KeptTree(parse: string -> map<string, string>, cl: Closure, then_: Tree, now: Checkout)
    requires TreeWhy(parse, cl, then_, now) == None
    ensures forall p :: p in cl.content ==> p !in Changed(then_, now)
    ensures forall p :: p in cl.present ==> p in Listed(now) || InDirs(Listed(now), p)
    ensures forall p :: p in cl.absent ==> p !in Listed(now) && !InDirs(Listed(now), p)
    ensures forall d :: d in cl.listed ==> Children(then_.Keys, d) == Children(Listed(now), d)
    ensures cl.git == Some(TreeOnly) ==> Listed(now) == then_.Keys
    ensures forall k :: k in cl.locked ==>
                          LOCK !in Changed(then_, now) || PackageIn(parse, then_, k) == PackageIn(parse, now.files, k)
  {
    var hit := cl.content * Changed(then_, now);
    assert forall p :: p in cl.content && p in Changed(then_, now) ==> p in hit;
  }

  // ── when the listing tells the truth ───────────────────────────────────────

  /** Each path of the record's commit that git still lists is on disk as it was then, a file or
      a directory. It fails for a path removed from disk without `git rm`, and for one that
      turned from a file into a directory or back. */
  ghost predicate ListingIsTrue(then_: Tree, now: Checkout) {
    forall p :: KindIn(then_, p) != Nowhere && (p in Listed(now) || InDirs(Listed(now), p)) ==>
                  KindIn(now.files, p) == KindIn(then_, p)
  }

  lemma UnchangedHeld(then_: Tree, now: Checkout, p: Path)
    requires p !in Changed(then_, now)
    ensures Held(now.files, p) == Held(then_, p)
  {
  }

  ghost predicate ContentSame(cl: Closure, x: Tree, y: Tree) {
    forall f :: f in cl.content ==> Held(x, f) == Held(y, f)
  }

  lemma KeptContent(parse: string -> map<string, string>, cl: Closure, then_: Tree, now: Checkout)
    requires TreeWhy(parse, cl, then_, now) == None
    ensures ContentSame(cl, then_, now.files)
  {
    KeptTree(parse, cl, then_, now);
    forall f | f in cl.content ensures Held(then_, f) == Held(now.files, f) {
      UnchangedHeld(then_, now, f);
    }
  }

  lemma DirsMore(a: set<Path>, b: set<Path>, p: Path)
    requires a <= b && InDirs(a, p)
    ensures InDirs(b, p)
  {
  }

  lemma ChildIsThere(paths: set<Path>, d: Path, name: string) returns (f: Path)
    requires name in Children(paths, d)
    ensures f in paths && d < f && f[|d|] == name && d + [name] <= f
    ensures d + [name] in paths || InDirs(paths, d + [name])
  {
    f :| f in paths && d < f && f[|d|] == name;
    if d + [name] != f {
      assert d + [name] < f;
    }
  }

  /** The part of that which a closure rests on: what it found is on disk as the kind it was, every
      entry it listed is there, and so is every tracked file if it lists those. */
  ghost predicate RestsTrue(cl: Closure, then_: Tree, now: Checkout) {
    && (forall p :: p in cl.present && KindIn(then_, p) != Nowhere ==> KindIn(now.files, p) == KindIn(then_, p))
    && (forall d :: d in cl.listed ==> EntriesThere(then_, now, d))
    && (cl.git == Some(TreeOnly) ==> then_.Keys <= now.files.Keys)
  }

  ghost predicate EntriesThere(then_: Tree, now: Checkout, d: Path) {
    forall name :: name in Children(then_.Keys, d) ==> KindIn(now.files, d + [name]) != Nowhere
  }

  /** A listed directory with the same names as then holds the same names on disk. */
  lemma EntriesOnDisk(then_: Tree, now: Checkout, d: Path)
    requires EntriesThere(then_, now, d) && Children(then_.Keys, d) == Children(Listed(now), d)
    ensures Children(now.files.Keys, d) == Children(then_.Keys, d)
  {
    forall name | name in Children(then_.Keys, d) ensures name in Children(now.files.Keys, d) {
      var child := d + [name];
      var h := if child in now.files then child else (var h :| h in now.files && child < h; h);
      assert h in now.files.Keys && d < h && h[|d|] == name;
    }
    assert Children(now.files.Keys, d) <= Children(Listed(now), d);
  }

  lemma MissingKept(then_: Tree, now: Checkout, p: Path)
    requires p !in Listed(now) && !InDirs(Listed(now), p)
    ensures KindIn(now.files, p) == Nowhere
  {
    if InDirs(now.files.Keys, p) {
      DirsMore(now.files.Keys, Listed(now), p);
    }
  }

  /** A directory whose names are unchanged is still a directory. */
  lemma ListedIsDirectory(then_: Tree, now: Checkout, d: Path)
    requires WellFormed(then_) && WellFormed(now.files) && EntriesThere(then_, now, d)
    requires KindIn(then_, d) == Directory && Children(then_.Keys, d) == Children(Listed(now), d)
    ensures KindIn(now.files, d) == Directory
  {
    EntriesOnDisk(then_, now, d);
    if d != [] {
      var f :| f in then_ && d < f;
      assert f[|d|] in Children(then_.Keys, d);
      var h :| h in now.files && d < h && h[|d|] == f[|d|];
      assert InDirs(now.files.Keys, d);
    }
  }

  /** What kind of thing is at a covered path hasn't changed. */
  lemma KindSound(parse: string -> map<string, string>, cl: Closure, then_: Tree, now: Checkout, p: Path)
    requires WellFormed(then_) && WellFormed(now.files) && RestsTrue(cl, then_, now)
    requires TreeWhy(parse, cl, then_, now) == None
    requires Covers(cl, then_, KindOf(p))
    ensures KindIn(now.files, p) == KindIn(then_, p)
  {
    KeptTree(parse, cl, then_, now);
    match KindIn(then_, p)
    case File =>
      if p in cl.content {
        UnchangedHeld(then_, now, p);
      }
    case Directory =>
      if p !in cl.present {
        ListedIsDirectory(then_, now, p);
      }
    case Nowhere => MissingKept(then_, now, p);
  }

  /** Every covered question about the tree has the answer it had. */
  lemma TreeSound(parse: string -> map<string, string>, cl: Closure, then_: Tree, now: Checkout, q: Query)
    requires WellFormed(then_) && WellFormed(now.files) && RestsTrue(cl, then_, now)
    requires TreeWhy(parse, cl, then_, now) == None && AboutTree(cl, q) && Covers(cl, then_, q)
    ensures SameAnswer(parse, then_, now.files, q)
  {
    KeptTree(parse, cl, then_, now);
    match q
    case Content(p) =>
      KindSound(parse, cl, then_, now, p);
      if p in then_ {
        UnchangedHeld(then_, now, p);
      }
    case KindOf(p) => KindSound(parse, cl, then_, now, p);
    case Entries(p) =>
      KindSound(parse, cl, then_, now, p);
      if KindIn(then_, p) == Directory {
        EntriesOnDisk(then_, now, p);
      } else {
        NoChildren(then_, p);
        NoChildren(now.files, p);
      }
    case Package(name) =>
      if LOCK !in Changed(then_, now) {
        UnchangedHeld(then_, now, LOCK);
      }
    case Tracked =>
      assert cl.git.value.TreeOnly?;
      TrackedOnDisk(then_, now);
  }

  lemma NoChildren(files: Tree, p: Path)
    requires WellFormed(files) && KindIn(files, p) != Directory
    ensures Children(files.Keys, p) == {}
  {
  }

  lemma TrackedOnDisk(then_: Tree, now: Checkout)
    requires Listed(now) == then_.Keys <= now.files.Keys
    ensures now.files.Keys == then_.Keys
  {
  }

  // ── and exactly then ───────────────────────────────────────────────────────

  /** The questions a closure covers have the answers they had. */
  ghost predicate ClosureSound(parse: string -> map<string, string>, cl: Closure, then_: Tree, now: Checkout) {
    forall q :: AboutTree(cl, q) && Covers(cl, then_, q) ==> SameAnswer(parse, then_, now.files, q)
  }

  /** So they have under whatever closure the cache keeps a verdict. */
  ghost predicate TreeCacheSound(parse: string -> map<string, string>, then_: Tree, now: Checkout) {
    forall cl :: TreeWhy(parse, cl, then_, now) == None ==> ClosureSound(parse, cl, then_, now)
  }

  predicate AboutTree(cl: Closure, q: Query) {
    q.Content? || q.KindOf? || q.Entries? || q.Package? || (q.Tracked? && cl.git != Some(FullHistory))
  }

  ghost predicate SameAnswer(parse: string -> map<string, string>, a: Tree, b: Tree, q: Query) {
    forall w: World, w': World :: w.files == a && w'.files == b ==> Ask(parse, w, q) == Ask(parse, w', q)
  }

  ghost function Holding(files: Tree): World {
    World(files, "", map[], map[], map[])
  }

  /** Two trees whose answers are told apart. */
  lemma Told(parse: string -> map<string, string>, a: Tree, b: Tree, q: Query)
    requires SameAnswer(parse, a, b, q)
    ensures Ask(parse, Holding(a), q) == Ask(parse, Holding(b), q)
  {
  }

  /** What a closure rests on is on disk if what it covers has the same answers. */
  lemma SoundRestsTrue(parse: string -> map<string, string>, cl: Closure, then_: Tree, now: Checkout)
    requires WellFormed(then_) && WellFormed(now.files)
    requires TreeWhy(parse, cl, then_, now) == None && ClosureSound(parse, cl, then_, now)
    ensures RestsTrue(cl, then_, now)
  {
    forall p | p in cl.present && KindIn(then_, p) != Nowhere ensures KindIn(now.files, p) == KindIn(then_, p) {
      assert AboutTree(cl, KindOf(p)) && Covers(cl, then_, KindOf(p));
      Told(parse, then_, now.files, KindOf(p));
    }
    forall d | d in cl.listed ensures EntriesThere(then_, now, d) {
      ListedThere(parse, cl, then_, now, d);
    }
    if cl.git == Some(TreeOnly) {
      assert AboutTree(cl, Tracked) && Covers(cl, then_, Tracked);
      Told(parse, then_, now.files, Tracked);
    }
  }

  lemma ListedThere(parse: string -> map<string, string>, cl: Closure, then_: Tree, now: Checkout, d: Path)
    requires WellFormed(then_) && ClosureSound(parse, cl, then_, now) && d in cl.listed
    ensures EntriesThere(then_, now, d)
  {
    if KindIn(then_, d) == Directory {
      assert AboutTree(cl, Entries(d)) && Covers(cl, then_, Entries(d));
      Told(parse, then_, now.files, Entries(d));
      forall name | name in Children(then_.Keys, d) ensures KindIn(now.files, d + [name]) != Nowhere {
        var _ := ChildIsThere(now.files.Keys, d, name);
      }
    } else {
      NoChildren(then_, d);
    }
  }

  /** A kept closure is sound exactly when what it rests on is on disk. */
  lemma SoundIffRestsTrue(parse: string -> map<string, string>, cl: Closure, then_: Tree, now: Checkout)
    requires WellFormed(then_) && WellFormed(now.files) && TreeWhy(parse, cl, then_, now) == None
    ensures ClosureSound(parse, cl, then_, now) <==> RestsTrue(cl, then_, now)
  {
    if RestsTrue(cl, then_, now) {
      forall q | AboutTree(cl, q) && Covers(cl, then_, q) ensures SameAnswer(parse, then_, now.files, q) {
        TreeSound(parse, cl, then_, now, q);
      }
    } else if ClosureSound(parse, cl, then_, now) {
      SoundRestsTrue(parse, cl, then_, now);
    }
  }

  function Looks(p: Path): Closure {
    Closure({}, {p}, {}, {}, None, {}, {}, {}, true)
  }

  /** A path gone from disk, or changed in kind, that git still lists passes the check that it is
      there, though a run that looks for it would see the difference. */
  lemma FalseListingMisleads(parse: string -> map<string, string>, then_: Tree, now: Checkout, p: Path)
    requires KindIn(then_, p) != Nowhere && (p in Listed(now) || InDirs(Listed(now), p))
    requires KindIn(now.files, p) != KindIn(then_, p)
    ensures TreeWhy(parse, Looks(p), then_, now) == None
    ensures AboutTree(Looks(p), KindOf(p)) && Covers(Looks(p), then_, KindOf(p))
    ensures !SameAnswer(parse, then_, now.files, KindOf(p))
  {
    var (w, w') := (World(then_, "", map[], map[], map[]), World(now.files, "", map[], map[], map[]));
    assert Ask(parse, w, KindOf(p)) != Ask(parse, w', KindOf(p));
  }

  /** A record of a run that looked whether `a` is a file, its fault being in `b`. */
  function SawA(): Recorded {
    var fault := Closure({["b"]}, {}, {}, {}, None, {}, {}, {}, true);
    Recorded(map[["a"] := "x", ["b"] := "y"], "", map[], map[], map[], Looks(["a"]),
             map["id" := Entry("table", true, fault)])
  }

  /** A checkout that has lost `a`, and an index that hasn't. */
  function LostA(): Present {
    Present(Checkout({["a"], ["b"]}, map[["b"] := "y"]), true, "", map[], map[], map[])
  }

  /** Asks what is at `a`, and fires if it is a file. */
  function LooksForA(answers: seq<Answer>): Move {
    if answers == [] then Asks(KindOf(["a"])) else Ends(answers[0] == IsKind(File))
  }

  lemma KeepsTheVerdict(parse: string -> map<string, string>)
    ensures Why(parse, false, Some(SawA()), "id", "table", LostA()) == None
  {
    var (a, b) := (["a"], ["b"]);
    var (r, now) := (SawA(), LostA());
    assert a[0] != b[0] && THIS[0] != a[0] && THIS[0] != b[0];
    assert Changed(r.commit, now.checkout) == {a};
    var cl := r.clean.Union(r.entries["id"].closure);
    assert cl.content == {b} && cl.present == {a} && cl.absent == {} && cl.listed == {} && cl.locked == {};
    assert TreeWhy(parse, cl, r.commit, now.checkout) == None;
  }

  /** The command's one question, before and after. */
  lemma AsksForA(parse: string -> map<string, string>, w: World, kind: Kind)
    requires KindIn(w.files, ["a"]) == kind
    ensures IsRun(parse, LooksForA, w, [IsKind(kind)])
  {
    var answers := [IsKind(kind)];
    assert answers[..0] == [];
    assert Answered(parse, LooksForA, w, answers, 0);
  }

  /** For one: the file is deleted and its deletion isn't staged, the recorded verdict is kept, and
      the command run again ends the other way. */
  lemma DeletedFileMisleads(parse: string -> map<string, string>)
    ensures Why(parse, false, Some(SawA()), "id", "table", LostA()) == None
    ensures var fault := [Whole(["b"], "z")];
            && Seeded(SawA().commit, fault).Ok? && Seeded(LostA().checkout.files, fault).Ok?
            && Files(fault) <= SawA().entries["id"].closure.content
            && IsRun(parse, LooksForA, ThenWorld(SawA(), Seeded(SawA().commit, fault).value), [IsKind(File)])
            && IsRun(parse, LooksForA, NowWorld(LostA(), Seeded(LostA().checkout.files, fault).value),
                     [IsKind(Nowhere)])
    ensures LooksForA([IsKind(File)]) == Ends(true) && LooksForA([IsKind(Nowhere)]) == Ends(false)
  {
    KeepsTheVerdict(parse);
    var (before, after) := (SawA().commit, LostA().checkout.files);
    assert ["a"][0] != ["b"][0];
    SeedsB(before);
    SeedsB(after);
    AsksForA(parse, ThenWorld(SawA(), before[["b"] := "z"]), File);
    AsksForA(parse, NowWorld(LostA(), after[["b"] := "z"]), Nowhere);
  }

  lemma SeedsB(tree: Tree)
    requires ["b"] in tree && tree[["b"]] != "z"
    ensures Seeded(tree, [Whole(["b"], "z")]) == Ok(tree[["b"] := "z"])
    ensures Files([Whole(["b"], "z")]) == {["b"]}
  {
    var item := Whole(["b"], "z");
    assert [item][1..] == [];
    assert Edits(tree, [item], map[]) == Ok(map[["b"] := "z"]);
    assert tree + map[["b"] := "z"] == tree[["b"] := "z"];
    assert [item][0].file in Files([item]);
  }

  /** Where the whole listing is true, so is what any kept closure rests on. */
  lemma TrueListingRests(parse: string -> map<string, string>, cl: Closure, then_: Tree, now: Checkout)
    requires ListingIsTrue(then_, now) && TreeWhy(parse, cl, then_, now) == None
    ensures RestsTrue(cl, then_, now)
  {
    KeptTree(parse, cl, then_, now);
    forall d, name | d in cl.listed && name in Children(then_.Keys, d)
      ensures KindIn(now.files, d + [name]) != Nowhere
    {
      var _ := ChildIsThere(then_.Keys, d, name);
      var _ := ChildIsThere(Listed(now), d, name);
    }
    if cl.git == Some(TreeOnly) {
      forall p | p in then_ ensures p in now.files {
        assert KindIn(now.files, p) == KindIn(then_, p);
      }
    }
  }

  /** The tree checks are sound exactly when the listing is true. */
  lemma SoundIffListingIsTrue(parse: string -> map<string, string>, then_: Tree, now: Checkout)
    requires WellFormed(then_) && WellFormed(now.files)
    ensures TreeCacheSound(parse, then_, now) <==> ListingIsTrue(then_, now)
  {
    if ListingIsTrue(then_, now) {
      forall cl | TreeWhy(parse, cl, then_, now) == None ensures ClosureSound(parse, cl, then_, now) {
        TrueListingRests(parse, cl, then_, now);
        SoundIffRestsTrue(parse, cl, then_, now);
      }
    } else {
      var p :| KindIn(then_, p) != Nowhere && (p in Listed(now) || InDirs(Listed(now), p)) &&
               KindIn(now.files, p) != KindIn(then_, p);
      FalseListingMisleads(parse, then_, now, p);
    }
  }

  /** A clean checkout, the one a pull request's leg runs in, lists just what is on disk; then the
      listing is false only where a path turned from a file into a directory or back. */
  lemma CleanListing(then_: Tree, now: Checkout)
    requires now.index <= now.files.Keys && WellFormed(then_) && WellFormed(now.files)
    requires forall p :: p in then_ && InDirs(now.files.Keys, p) ==> p in now.files
    requires forall p :: p in now.files && InDirs(then_.Keys, p) ==> p in then_
    ensures ListingIsTrue(then_, now)
  {
    assert Listed(now) == now.files.Keys;
  }

  // ── a kept verdict is the rerun's ──────────────────────────────────────────

  function ThenWorld(r: Recorded, files: Tree): World {
    World(files, r.history, r.tools, r.environment, r.downloads)
  }

  function NowWorld(now: Present, files: Tree): World {
    World(files, now.history, now.tools, now.environment, now.downloads)
  }

  /** The fault's files are the same in both trees, so it seeds the same edits, and refuses
      neither or both. */
  lemma SeedsAgree(then_: Tree, now: Checkout, fault: Fault)
    requires Seeded(then_, fault).Ok?
    requires forall f :: f in Files(fault) ==> f !in Changed(then_, now)
    ensures Seeded(now.files, fault).Ok?
    ensures var (a, b) := (Seeded(then_, fault).value, Seeded(now.files, fault).value);
            && a.Keys == then_.Keys && b.Keys == now.files.Keys
            && (forall f :: f in Files(fault) ==> f in a && f in b && a[f] == b[f])
            && (forall f :: f in then_ && f !in Files(fault) ==> a[f] == then_[f])
            && (forall f :: f in now.files && f !in Files(fault) ==> b[f] == now.files[f])
  {
    EditsFiles(then_, fault, map[]);
    forall f | f in Files(fault) ensures Text(then_, map[], f) == Text(now.files, map[], f) {
      UnchangedHeld(then_, now, f);
    }
    EditsLocal(then_, now.files, fault, map[]);
    EditsFiles(now.files, fault, map[]);
  }

  /** `a` is made from `x` and `b` from `y` by edits that write the same texts to the files a
      closure reads, and to no lock file it doesn't. */
  ghost predicate Alike(cl: Closure, x: Tree, y: Tree, a: Tree, b: Tree) {
    && a.Keys == x.Keys && b.Keys == y.Keys
    && ContentSame(cl, a, b)
    && (LOCK !in cl.content ==> Held(a, LOCK) == Held(x, LOCK) && Held(b, LOCK) == Held(y, LOCK))
  }

  /** Such edits leave a covered question's answer the same if it was the same before them. */
  lemma AlikeSameAnswer(parse: string -> map<string, string>, cl: Closure, x: Tree, y: Tree, a: Tree, b: Tree, q: Query)
    requires AboutTree(cl, q) && Covers(cl, x, q) && SameAnswer(parse, x, y, q) && Alike(cl, x, y, a, b)
    ensures SameAnswer(parse, a, b, q)
  {
    Told(parse, x, y, q);
    match q
    case Content(p) => assert p !in x ==> p !in y;
    case KindOf(_) =>
    case Entries(_) =>
    case Tracked =>
    case Package(_) =>
      assert LOCK in cl.content ==> Held(a, LOCK) == Held(b, LOCK);
  }

  /** On the seeded trees too, every covered question has the answer it had. */
  lemma SeededTreeSound(parse: string -> map<string, string>, cl: Closure, then_: Tree, now: Checkout, fault: Fault,
                        q: Query)
    requires WellFormed(then_) && WellFormed(now.files) && RestsTrue(cl, then_, now)
    requires TreeWhy(parse, cl, then_, now) == None && AboutTree(cl, q) && Covers(cl, then_, q)
    requires Seeded(then_, fault).Ok? && Files(fault) <= cl.content
    ensures Seeded(now.files, fault).Ok?
    ensures SameAnswer(parse, Seeded(then_, fault).value, Seeded(now.files, fault).value, q)
  {
    SeededAlike(parse, cl, then_, now, fault);
    TreeSound(parse, cl, then_, now, q);
    AlikeSameAnswer(parse, cl, then_, now.files, Seeded(then_, fault).value, Seeded(now.files, fault).value, q);
  }

  lemma SeededAlike(parse: string -> map<string, string>, cl: Closure, then_: Tree, now: Checkout, fault: Fault)
    requires TreeWhy(parse, cl, then_, now) == None
    requires Seeded(then_, fault).Ok? && Files(fault) <= cl.content
    ensures Seeded(now.files, fault).Ok?
    ensures Alike(cl, then_, now.files, Seeded(then_, fault).value, Seeded(now.files, fault).value)
  {
    KeptTree(parse, cl, then_, now);
    KeptContent(parse, cl, then_, now);
    SeedsAgree(then_, now, fault);
  }

  /** Every query of the recorded run is covered. */
  ghost predicate RunCovered(cmd: Command, answers: seq<Answer>, cl: Closure, then_: Tree) {
    forall i :: 0 <= i < |answers| && cmd(answers[..i]).Asks? ==> Covers(cl, then_, cmd(answers[..i]).query)
  }

  /** The closure a recorded verdict rests on: its command's and its own. */
  function Used(r: Recorded, id: string): Closure
    requires id in r.entries
  {
    r.clean.Union(r.entries[id].closure)
  }

  /** One question of a run whose verdict is kept, on trees made alike from then's and now's. */
  lemma KeptAnswer(parse: string -> map<string, string>, r: Recorded, id: string, table: string, now: Present,
                   a: Tree, b: Tree, q: Query)
    requires Why(parse, false, Some(r), id, table, now) == None
    requires WellFormed(r.commit) && WellFormed(now.checkout.files)
    requires var cl := Used(r, id);
             && RestsTrue(cl, r.commit, now.checkout) && Covers(cl, r.commit, q)
             && Alike(cl, r.commit, now.checkout.files, a, b)
    ensures Ask(parse, ThenWorld(r, a), q) == Ask(parse, NowWorld(now, b), q)
  {
    var cl := Used(r, id);
    if AboutTree(cl, q) {
      TreeSound(parse, cl, r.commit, now.checkout, q);
      AlikeSameAnswer(parse, cl, r.commit, now.checkout.files, a, b, q);
    }
  }

  /** When `why` keeps a verdict, a run of its closure's asks the same questions, hears the same
      answers and ends as it did, on any trees made alike from then's and now's; and no other run
      of its command exists there. */
  lemma KeptRunIsTheReruns(parse: string -> map<string, string>, r: Recorded, id: string, table: string, now: Present,
                           a: Tree, b: Tree, cmd: Command, answers: seq<Answer>)
    requires Why(parse, false, Some(r), id, table, now) == None
    requires WellFormed(r.commit) && WellFormed(now.checkout.files)
    requires var cl := Used(r, id);
             && RestsTrue(cl, r.commit, now.checkout) && RunCovered(cmd, answers, cl, r.commit)
             && Alike(cl, r.commit, now.checkout.files, a, b)
    requires IsRun(parse, cmd, ThenWorld(r, a), answers)
    ensures IsRun(parse, cmd, NowWorld(now, b), answers)
    ensures forall other :: IsRun(parse, cmd, NowWorld(now, b), other) ==> other == answers
  {
    var (w, w') := (ThenWorld(r, a), NowWorld(now, b));
    forall i | 0 <= i < |answers| ensures Answered(parse, cmd, w', answers, i) {
      assert Answered(parse, cmd, w, answers, i);
      KeptAnswer(parse, r, id, table, now, a, b, cmd(answers[..i]).query);
    }
    forall other | IsRun(parse, cmd, w', other) ensures other == answers {
      OneRun(parse, cmd, w', other, answers);
    }
  }

  /** A run its own closure covers is covered once that is stored beside the command's. */
  lemma StoredCovers(r: Recorded, id: string, ran: Closure, seeds: set<Path>, cmd: Command, answers: seq<Answer>)
    requires id in r.entries && r.entries[id].closure == EntryClosure(r.clean, ran, seeds)
    requires RunCovered(cmd, answers, ran, r.commit)
    ensures RunCovered(cmd, answers, Used(r, id), r.commit) && seeds <= Used(r, id).content
  {
    RecordIsWhole(r.clean, ran, seeds);
    forall i | 0 <= i < |answers| && cmd(answers[..i]).Asks?
      ensures Covers(Used(r, id), r.commit, cmd(answers[..i]).query)
    {
      UnionCovers(r.clean, ran, seeds, r.commit, cmd(answers[..i]).query);
    }
  }

  /** The cache's promise. When `why` keeps an entry's verdict, seeding the fault in the tree as
      it is now makes the same edits, and the command, run there, asks the same questions, hears
      the same answers and ends as it did: no other run of it exists. `answers` is the recorded
      run; `clean` and `ran` are what its command's clean run and its own read. If what was recorded
      is how that run ended, the run fired, and fires again. */
  lemma KeptVerdictIsTheReruns(parse: string -> map<string, string>, r: Recorded, id: string, table: string,
                               now: Present,
                               fault: Fault, ran: Closure, cmd: Command, answers: seq<Answer>)
    requires Why(parse, false, Some(r), id, table, now) == None
    requires r.entries[id].closure == EntryClosure(r.clean, ran, Files(fault))
    requires WellFormed(r.commit) && WellFormed(now.checkout.files) && RestsTrue(Used(r, id), r.commit, now.checkout)
    requires Seeded(r.commit, fault).Ok?
    requires IsRun(parse, cmd, ThenWorld(r, Seeded(r.commit, fault).value), answers)
    requires RunCovered(cmd, answers, ran, r.commit)
    ensures Seeded(now.checkout.files, fault).Ok?
    ensures var w := NowWorld(now, Seeded(now.checkout.files, fault).value);
            IsRun(parse, cmd, w, answers) && forall other :: IsRun(parse, cmd, w, other) ==> other == answers
    ensures cmd(answers) == Ends(r.entries[id].fired) ==> cmd(answers) == Ends(true)
  {
    StoredCovers(r, id, ran, Files(fault), cmd, answers);
    SeededAlike(parse, Used(r, id), r.commit, now.checkout, fault);
    KeptRunIsTheReruns(parse, r, id, table, now, Seeded(r.commit, fault).value,
                       Seeded(now.checkout.files, fault).value, cmd, answers);
  }
}
