/** `Comparison` and `compare` of tools/check-schema-compat.py: the walk over pairs of shapes from
    each route down, pruned along its own path, and what it finds. */
module SchemaCompare {
  import opened Prelude
  import opened SchemaShapes

  type Pair = (Name, Name)

  /** Every pair of names a walk can meet. */
  ghost function Universe(base: Schema, current: Schema): set<Pair> {
    set a, b | a in base.defs.Keys + {INLINE} && b in current.defs.Keys + {INLINE} :: (a, b)
  }

  ghost predicate Known(schema: Schema, shape: Shape) {
    shape.Shaped? ==> shape.name in schema.defs.Keys + {INLINE}
  }

  ghost function Left(base: Schema, current: Schema, seen: set<Pair>): nat {
    |Universe(base, current) - seen|
  }

  lemma SeenShrinks(base: Schema, current: Schema, seen: set<Pair>, p: Pair)
    requires p in Universe(base, current) && p !in seen
    ensures Left(base, current, seen + {p}) < Left(base, current, seen)
  {
    var (was, now) := (Universe(base, current) - seen, Universe(base, current) - (seen + {p}));
    assert was == now + {p};
  }

  /** What one pair of shapes breaks. */
  type Rule = (Shape, Shape) -> set<Break>

  function RuleOf(side: Side): Rule {
    (was: Shape, now: Shape) => LocalBreaks(side, was, now)
  }

  /** The breaks `shape` finds from one pair down, given the pairs already on its path. */
  ghost function Walk(base: Schema, current: Schema, rule: Rule, was: Shape, now: Shape, seen: set<Pair>): set<Break>
    requires Known(base, was) && Known(current, now)
    decreases Left(base, current, seen), 1
  {
    if was.Absent? && now.Absent? then {}
    else if was.Absent? || now.Absent? then rule(was, now)
    else if (was.name, now.name) in seen then {}
    else
      SeenShrinks(base, current, seen, (was.name, now.name));
      rule(was, now) + Below(base, current, rule, Children(was, now), seen + {(was.name, now.name)})
  }

  ghost function Below(base: Schema, current: Schema, rule: Rule, children: set<Pair>, seen: set<Pair>): set<Break>
    decreases Left(base, current, seen), 2
  {
    set c, b | c in children && b in Walk(base, current, rule, Resolved(base, c.0), Resolved(current, c.1), seen) :: b
  }

  lemma BelowMore(base: Schema, current: Schema, rule: Rule, children: set<Pair>, c: Pair, seen: set<Pair>)
    ensures Below(base, current, rule, children + {c}, seen) ==
            Below(base, current, rule, children, seen)
            + Walk(base, current, rule, Resolved(base, c.0), Resolved(current, c.1), seen)
  {
  }

  // ── the comparison object ──────────────────────────────────────────────────

  type Label = string

  /** `found` with `where` listed under each of `breaks`. */
  function AddAll(found: map<Break, seq<Label>>, breaks: set<Break>, where: Label): map<Break, seq<Label>> {
    map b | b in found.Keys + breaks ::
      var routes := if b in found then found[b] else [];
      if b in breaks && where !in routes then routes + [where] else routes
  }

  lemma AddAllTwice(found: map<Break, seq<Label>>, a: set<Break>, b: set<Break>, where: Label)
    ensures AddAll(AddAll(found, a, where), b, where) == AddAll(found, a + b, where)
  {
  }

  /** Each break listed with each route it was found on. */
  ghost function Listing(found: map<Break, seq<Label>>): set<(Break, Label)> {
    set b, l | b in found && l in found[b] :: (b, l)
  }

  ghost function Labelled(breaks: set<Break>, where: Label): set<(Break, Label)> {
    set b | b in breaks :: (b, where)
  }

  lemma AddAllLists(found: map<Break, seq<Label>>, breaks: set<Break>, where: Label)
    ensures Listing(AddAll(found, breaks, where)) == Listing(found) + Labelled(breaks, where)
    ensures AddAll(found, breaks, where).Keys == found.Keys + breaks
  {
    var all := AddAll(found, breaks, where);
    forall b, l ensures (b, l) in Listing(all) <==> (b, l) in Listing(found) || (b, l) in Labelled(breaks, where) {
      if b in all {
        assert b in found || b in breaks;
      }
    }
  }

  class Comparison {
    const base: Schema
    const current: Schema
    // Where each break was found, in the order it was.
    var found: map<Break, seq<Label>>

    constructor (base: Schema, current: Schema)
      ensures this.base == base && this.current == current && found == map[]
    {
      this.base, this.current, found := base, current, map[];
    }

    method Add(message: Break, where: Option<Label>)
      modifies this
      ensures where.Some? ==> found == AddAll(old(found), {message}, where.value)
      ensures where.None? ==> found == if message in old(found) then old(found) else old(found)[message := []]
    {
      var routes := if message in found then found[message] else [];
      if where.Some? && where.value !in routes {
        routes := routes + [where.value];
      }
      found := found[message := routes];
    }

    method AddEach(breaks: set<Break>, where: Label)
      modifies this
      ensures found == AddAll(old(found), breaks, where)
    {
      var todo := breaks;
      while todo != {}
        invariant todo <= breaks
        invariant found == AddAll(old(found), breaks - todo, where)
        decreases todo
      {
        var b :| b in todo;
        Add(b, Some(where));
        AddAllTwice(old(found), breaks - todo, {b}, where);
        assert breaks - (todo - {b}) == (breaks - todo) + {b};
        todo := todo - {b};
      }
      assert breaks - {} == breaks;
    }

    /** Hold one pair of shapes, and every pair its shared fields name in turn, to the rule. */
    method Hold(side: Side, was: Shape, now: Shape, where: Label, seen: set<Pair>)
      requires Known(base, was) && Known(current, now)
      modifies this
      ensures found == AddAll(old(found), Walk(base, current, RuleOf(side), was, now, seen), where)
      decreases Left(base, current, seen), 1
    {
      if (was.Absent? && now.Absent?) || (was.Shaped? && now.Shaped? && (was.name, now.name) in seen) {
        return;
      }
      AddEach(LocalBreaks(side, was, now), where);
      if was.Absent? || now.Absent? {
        return;
      }
      var p := (was.name, now.name);
      SeenShrinks(base, current, seen, p);
      HoldEach(side, Children(was, now), where, seen + {p});
      AddAllTwice(old(found), LocalBreaks(side, was, now),
                  Below(base, current, RuleOf(side), Children(was, now), seen + {p}), where);
    }

    method HoldEach(side: Side, children: set<Pair>, where: Label, seen: set<Pair>)
      modifies this
      ensures found == AddAll(old(found), Below(base, current, RuleOf(side), children, seen), where)
      decreases Left(base, current, seen), 2
    {
      var todo := children;
      assert children - todo == {};
      while todo != {}
        invariant todo <= children
        invariant found == AddAll(old(found), Below(base, current, RuleOf(side), children - todo, seen), where)
        decreases todo
      {
        var c :| c in todo;
        Hold(side, Resolved(base, c.0), Resolved(current, c.1), where, seen);
        AddAllTwice(old(found), Below(base, current, RuleOf(side), children - todo, seen),
                    Walk(base, current, RuleOf(side), Resolved(base, c.0), Resolved(current, c.1), seen), where);
        BelowMore(base, current, RuleOf(side), children - todo, c, seen);
        assert children - (todo - {c}) == children - todo + {c};
        todo := todo - {c};
      }
      assert children - todo == children;
    }

    method Body(side: Side, was: Slot, now: Slot, where: Label)
      modifies this
      ensures found == AddAll(old(found), BodyBreaks(base, current, side, was, now), where)
    {
      Hold(side, Resolve(base, was), Resolve(current, now), where, {});
    }
  }

  ghost function BodyBreaks(base: Schema, current: Schema, side: Side, was: Slot, now: Slot): set<Break> {
    Walk(base, current, RuleOf(side), Resolve(base, was), Resolve(current, now), {})
  }

  // ── the walk finds what is reachable, and only that ────────────────────────

  /** A pair of shapes the comparison can stand at. */
  datatype Node = Node(was: Shape, now: Shape)

  ghost predicate At(base: Schema, current: Schema, node: Node) {
    Known(base, node.was) && Known(current, node.now)
  }

  function NodeOf(base: Schema, current: Schema, p: Pair): Node {
    Node(Resolved(base, p.0), Resolved(current, p.1))
  }

  /** `path` goes from `root`, each pair named by a field the pair before it shares. */
  ghost predicate Path(base: Schema, current: Schema, root: Node, path: seq<Pair>)
    decreases |path|
  {
    path == [] ||
    (path[0] in Children(root.was, root.now) && Path(base, current, NodeOf(base, current, path[0]), path[1..]))
  }

  ghost function End(base: Schema, current: Schema, root: Node, path: seq<Pair>): Node {
    if path == [] then root else NodeOf(base, current, path[|path| - 1])
  }

  function PairOf(node: Node): Pair {
    (NameOf(node.was), NameOf(node.now))
  }

  /** The definition a root is named after, if any, is the root itself. A body given by reference
      always stands so; an inline one does unless a definition has its placeholder name. */
  ghost predicate Stands(base: Schema, current: Schema, root: Node) {
    && At(base, current, root)
    && (root.was.Shaped? && root.was.name in base.defs ==> root.was == Resolved(base, root.was.name))
    && (root.now.Shaped? && root.now.name in current.defs ==> root.now == Resolved(current, root.now.name))
  }

  predicate Defined(base: Schema, current: Schema, q: Pair) {
    q.0 in base.defs && q.1 in current.defs
  }

  lemma FoundBelow(base: Schema, current: Schema, rule: Rule, children: set<Pair>, seen: set<Pair>, b: Break)
    returns (c: Pair)
    requires b in Below(base, current, rule, children, seen)
    ensures c in children && b in Walk(base, current, rule, Resolved(base, c.0), Resolved(current, c.1), seen)
  {
    c :| c in children && b in Walk(base, current, rule, Resolved(base, c.0), Resolved(current, c.1), seen);
  }

  /** Each break found is a break of a pair some path reaches. */
  lemma {:induction false} WalkOnlyReachable(base: Schema, current: Schema, rule: Rule, root: Node, seen: set<Pair>,
                                             b: Break)
    returns (path: seq<Pair>)
    requires At(base, current, root) && b in Walk(base, current, rule, root.was, root.now, seen)
    ensures Path(base, current, root, path)
    ensures var end := End(base, current, root, path); b in rule(end.was, end.now)
    decreases Left(base, current, seen)
  {
    if b in rule(root.was, root.now) {
      path := [];
    } else {
      var p := (root.was.name, root.now.name);
      SeenShrinks(base, current, seen, p);
      var c := FoundBelow(base, current, rule, Children(root.was, root.now), seen + {p}, b);
      var rest := WalkOnlyReachable(base, current, rule, NodeOf(base, current, c), seen + {p}, b);
      path := [c] + rest;
      PathCons(base, current, root, c, rest);
    }
  }

  lemma PathCons(base: Schema, current: Schema, root: Node, c: Pair, rest: seq<Pair>)
    requires c in Children(root.was, root.now) && Path(base, current, NodeOf(base, current, c), rest)
    ensures Path(base, current, root, [c] + rest)
    ensures End(base, current, root, [c] + rest) == End(base, current, NodeOf(base, current, c), rest)
  {
    assert ([c] + rest)[1..] == rest;
  }

  lemma {:induction false} PathSplit(base: Schema, current: Schema, root: Node, a: seq<Pair>, b: seq<Pair>)
    ensures Path(base, current, root, a + b) <==>
            Path(base, current, root, a) && Path(base, current, End(base, current, root, a), b)
    decreases |a|
  {
    if a == [] {
      assert a + b == b;
    } else {
      assert (a + b)[1..] == a[1..] + b;
      PathSplit(base, current, NodeOf(base, current, a[0]), a[1..], b);
    }
  }

  /** A path that meets no pair of `seen` and no pair twice is walked to its end. */
  lemma {:induction false} SimplePathWalked(base: Schema, current: Schema, rule: Rule, root: Node,
                                            path: seq<Pair>, seen: set<Pair>, b: Break)
    requires At(base, current, root) && Path(base, current, root, path)
    requires root.was.Shaped? && root.now.Shaped? ==> PairOf(root) !in seen
    requires NoDuplicates(path)
    requires forall q :: q in path && Defined(base, current, q) ==> q !in seen && q != PairOf(root)
    requires root.was.Shaped? || root.now.Shaped?
    requires var end := End(base, current, root, path);
             (end.was.Shaped? || end.now.Shaped?) && b in rule(end.was, end.now)
    ensures b in Walk(base, current, rule, root.was, root.now, seen)
    decreases |path|
  {
    if path != [] {
      var p := PairOf(root);
      SeenShrinks(base, current, seen, p);
      var next := NodeOf(base, current, path[0]);
      assert path[0] in path && forall q :: q in path[1..] ==> q in path;
      assert path[0] !in path[1..];
      assert End(base, current, next, path[1..]) == End(base, current, root, path);
      SimplePathWalked(base, current, rule, next, path[1..], seen + {p}, b);
      assert b in Below(base, current, rule, Children(root.was, root.now), seen + {p});
    }
  }

  /** Cut the stretch between two places that stand at the same pair. */
  lemma Cut(base: Schema, current: Schema, root: Node, path: seq<Pair>, i: nat, j: nat) returns (short: seq<Pair>)
    requires Path(base, current, root, path) && i < j <= |path|
    requires End(base, current, root, path[..i]) == End(base, current, root, path[..j])
    ensures |short| < |path| && Path(base, current, root, short)
    ensures End(base, current, root, short) == End(base, current, root, path)
  {
    short := path[..i] + path[j..];
    assert path == path[..j] + path[j..] && path == path[..i] + path[i..];
    PathSplit(base, current, root, path[..i], path[i..]);
    PathSplit(base, current, root, path[..j], path[j..]);
    PathSplit(base, current, root, path[..i], path[j..]);
    EndSplit(base, current, root, path[..i], path[j..]);
    EndSplit(base, current, root, path[..j], path[j..]);
  }

  lemma EndSplit(base: Schema, current: Schema, root: Node, a: seq<Pair>, b: seq<Pair>)
    ensures End(base, current, root, a + b) == End(base, current, End(base, current, root, a), b)
  {
    assert b == [] ==> a + b == a;
  }

  /** Any end a path reaches, a path without a repeat reaches. */
  lemma {:induction false} Shorten(base: Schema, current: Schema, root: Node, path: seq<Pair>)
    returns (short: seq<Pair>)
    requires Stands(base, current, root) && Path(base, current, root, path)
    ensures Path(base, current, root, short) && End(base, current, root, short) == End(base, current, root, path)
    ensures NoDuplicates(short)
    ensures forall q :: q in short && Defined(base, current, q) ==> q != PairOf(root)
    decreases |path|
  {
    if i, j :| 0 <= i < j < |path| && path[i] == path[j] {
      var cut := Cut(base, current, root, path, i + 1, j + 1);
      short := Shorten(base, current, root, cut);
    } else if j :| 0 <= j < |path| && path[j] == PairOf(root) && Defined(base, current, path[j])
                   && root.was.Shaped? && root.now.Shaped? {
      var cut := Cut(base, current, root, path, 0, j + 1);
      short := Shorten(base, current, root, cut);
    } else {
      short := path;
      assert path != [] ==> path[0] in Children(root.was, root.now);
    }
  }

  ghost predicate SilentOnNothing(rule: Rule) {
    rule(Absent, Absent) == {}
  }

  lemma ReachedIsWalked(base: Schema, current: Schema, rule: Rule, root: Node, path: seq<Pair>, b: Break)
    requires Stands(base, current, root) && Path(base, current, root, path) && SilentOnNothing(rule)
    requires b in rule(End(base, current, root, path).was, End(base, current, root, path).now)
    ensures b in Walk(base, current, rule, root.was, root.now, {})
  {
    var short := Shorten(base, current, root, path);
    if short != [] {
      assert short[0] in Children(root.was, root.now);
    }
    SimplePathWalked(base, current, rule, root, short, {}, b);
  }

  /** Pruned along its path though it is, the walk applies the rule to every pair reachable from
      the body it starts at, and to no other. */
  lemma WalkIsReachability(base: Schema, current: Schema, rule: Rule, root: Node, b: Break)
    requires Stands(base, current, root) && SilentOnNothing(rule)
    ensures b in Walk(base, current, rule, root.was, root.now, {}) <==>
            exists path :: Path(base, current, root, path) &&
                           b in rule(End(base, current, root, path).was, End(base, current, root, path).now)
  {
    if b in Walk(base, current, rule, root.was, root.now, {}) {
      var _ := WalkOnlyReachable(base, current, rule, root, {}, b);
    }
    if path :| Path(base, current, root, path) &&
               b in rule(End(base, current, root, path).was, End(base, current, root, path).now)
    {
      ReachedIsWalked(base, current, rule, root, path, b);
    }
  }

  lemma RulesSilent(side: Side)
    ensures SilentOnNothing(RuleOf(side))
  {
    assert Props(Absent) == map[] && Required(Absent) == {};
    if side.Request? {
      assert RequestBreaks(Absent, Absent) == {};
    } else {
      assert ResponseBreaks(Absent, Absent) == {};
    }
  }
}
