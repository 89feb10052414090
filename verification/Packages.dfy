/** `Graph.reach` of tools/check-guards-fire.py: the packages a set of roots reaches. */
module Packages {

  // A package's id, compared for equality and nothing else.
  type Package = nat

  /** A dependency, and whether it is a dev-dependency only. */
  datatype Dep = Dep(package: Package, dev: bool)

  type Deps = map<Package, seq<Dep>>

  function DepsOf(deps: Deps, p: Package): seq<Dep> {
    if p in deps then deps[p] else []
  }

  /** An edge a build follows from `p`: any from a root, and past it no dev one. */
  ghost predicate Edge(deps: Deps, p: Package, q: Package, top: bool) {
    exists i :: 0 <= i < |DepsOf(deps, p)| && DepsOf(deps, p)[i].package == q && (top || !DepsOf(deps, p)[i].dev)
  }

  /** A path whose first edge is of any kind and each later one isn't a dev one. */
  ghost predicate Path(deps: Deps, path: seq<Package>) {
    path != [] && forall i :: 0 <= i < |path| - 1 ==> Edge(deps, path[i], path[i + 1], i == 0)
  }

  ghost predicate Reachable(deps: Deps, roots: set<Package>, p: Package) {
    exists path :: Path(deps, path) && path[0] in roots && path[|path| - 1] == p
  }

  /** Still to look at, and whether it is a root. */
  datatype Todo = Todo(package: Package, top: bool)

  ghost function Everything(deps: Deps, roots: set<Package>): set<Package> {
    roots + set p, i | p in deps && 0 <= i < |deps[p]| :: deps[p][i].package
  }

  ghost predicate Waits(todo: seq<Todo>, p: Package) {
    exists i :: 0 <= i < |todo| && todo[i].package == p
  }

  /** Everything an edge leads to from a package already looked at has been seen. */
  ghost predicate Followed(deps: Deps, roots: set<Package>, seen: set<Package>, p: Package) {
    forall q :: Edge(deps, p, q, p in roots) ==> q in seen
  }

  ghost predicate Consistent(deps: Deps, roots: set<Package>, seen: set<Package>, todo: seq<Todo>) {
    && roots <= seen <= Everything(deps, roots)
    && (forall p :: p in seen ==> Reachable(deps, roots, p))
    && (forall i :: 0 <= i < |todo| ==> todo[i].package in seen && todo[i].top == (todo[i].package in roots))
    && (forall p :: p in seen && !Waits(todo, p) ==> Followed(deps, roots, seen, p))
  }

  lemma RootReachable(deps: Deps, roots: set<Package>, p: Package)
    requires p in roots
    ensures Reachable(deps, roots, p)
  {
    var path := [p];
    assert Path(deps, path) && path[0] in roots && path[|path| - 1] == p;
  }

  lemma StepReachable(deps: Deps, roots: set<Package>, p: Package, q: Package)
    requires Reachable(deps, roots, p) && Edge(deps, p, q, p in roots)
    ensures Reachable(deps, roots, q)
  {
    if p in roots {
      var path := [p, q];
      assert Path(deps, path) && path[0] in roots && path[|path| - 1] == q;
    } else {
      var path :| Path(deps, path) && path[0] in roots && path[|path| - 1] == p;
      var longer := path + [q];
      forall i | 0 <= i < |longer| - 1 ensures Edge(deps, longer[i], longer[i + 1], i == 0) {
        if i < |path| - 1 {
          assert Edge(deps, path[i], path[i + 1], i == 0);
        } else {
          assert longer[i] == p && longer[i + 1] == q;
        }
      }
      assert Path(deps, longer) && longer[0] in roots && longer[|longer| - 1] == q;
    }
  }

  /** A set that holds the roots and whatever an edge leads to from it holds all that is reachable. */
  lemma {:induction false} ClosedHoldsPath(deps: Deps, roots: set<Package>, seen: set<Package>, path: seq<Package>,
                                           i: nat)
    requires roots <= seen && forall p :: p in seen ==> Followed(deps, roots, seen, p)
    requires Path(deps, path) && path[0] in roots && i < |path|
    ensures path[i] in seen
  {
    if i > 0 {
      ClosedHoldsPath(deps, roots, seen, path, i - 1);
      var (p, q) := (path[i - 1], path[i]);
      assert Edge(deps, path[i - 1], path[i - 1 + 1], i - 1 == 0);
      assert Edge(deps, p, q, p in roots) by {
        var k :| 0 <= k < |DepsOf(deps, p)| && DepsOf(deps, p)[k].package == q
                 && (i - 1 == 0 || !DepsOf(deps, p)[k].dev);
        assert i - 1 == 0 ==> p in roots;
      }
    }
  }

  lemma ClosedHoldsAll(deps: Deps, roots: set<Package>, seen: set<Package>)
    requires roots <= seen && forall p :: p in seen ==> Followed(deps, roots, seen, p)
    ensures forall p :: Reachable(deps, roots, p) ==> p in seen
  {
    forall p | Reachable(deps, roots, p) ensures p in seen {
      var path :| Path(deps, path) && path[0] in roots && path[|path| - 1] == p;
      ClosedHoldsPath(deps, roots, seen, path, |path| - 1);
    }
  }

  lemma DepInEverything(deps: Deps, roots: set<Package>, p: Package, i: nat)
    requires i < |DepsOf(deps, p)|
    ensures DepsOf(deps, p)[i].package in Everything(deps, roots)
  {
    assert p in deps && deps[p][i].package == DepsOf(deps, p)[i].package;
  }

  /** What the list holds once some packages beyond `before` have been marked. */
  ghost predicate Listed(roots: set<Package>, before: set<Package>, rest: seq<Todo>, seen: set<Package>,
                         todo: seq<Todo>) {
    && roots <= before <= seen
    && (seen == before ==> todo == rest)
    && (forall k :: 0 <= k < |todo| ==> todo[k].package in seen && todo[k].top == (todo[k].package in roots))
    && (forall p :: p in seen && p !in before ==> Waits(todo, p))
    && (forall p :: Waits(rest, p) ==> Waits(todo, p))
  }

  lemma ListedMarks(roots: set<Package>, before: set<Package>, rest: seq<Todo>, seen: set<Package>, todo: seq<Todo>,
                    q: Package)
    requires Listed(roots, before, rest, seen, todo) && q !in seen
    ensures Listed(roots, before, rest, seen + {q}, todo + [Todo(q, false)])
  {
    forall p ensures Waits(todo + [Todo(q, false)], p) <==> Waits(todo, p) || p == q {
      WaitsLonger(todo, Todo(q, false), p);
    }
  }

  /** The first `i` dependencies of the package taken off the list have been followed. */
  ghost predicate Midway(deps: Deps, roots: set<Package>, item: Todo, before: set<Package>, rest: seq<Todo>,
                         seen: set<Package>, todo: seq<Todo>, i: nat) {
    && seen <= Everything(deps, roots)
    && (forall p :: p in seen ==> Reachable(deps, roots, p))
    && Listed(roots, before, rest, seen, todo)
    && FollowedTo(DepsOf(deps, item.package), item.top, seen, i)
  }

  ghost predicate FollowedTo(all: seq<Dep>, top: bool, seen: set<Package>, i: nat) {
    forall k :: 0 <= k < |all| && k < i && (top || !all[k].dev) ==> all[k].package in seen
  }

  lemma WaitsLonger(todo: seq<Todo>, item: Todo, p: Package)
    ensures Waits(todo + [item], p) <==> Waits(todo, p) || p == item.package
  {
    if Waits(todo, p) {
      var k :| 0 <= k < |todo| && todo[k].package == p;
      assert (todo + [item])[k].package == p;
    }
    assert (todo + [item])[|todo|] == item;
  }

  lemma MidwayMarks(deps: Deps, roots: set<Package>, item: Todo, before: set<Package>, rest: seq<Todo>,
                    seen: set<Package>, todo: seq<Todo>, i: nat)
    requires Consistent(deps, roots, before, rest + [item])
    requires Midway(deps, roots, item, before, rest, seen, todo, i) && i < |DepsOf(deps, item.package)|
    requires var dep := DepsOf(deps, item.package)[i]; (item.top || !dep.dev) && dep.package !in seen
    ensures var q := DepsOf(deps, item.package)[i].package;
      Midway(deps, roots, item, before, rest, seen + {q}, todo + [Todo(q, false)], i + 1)
  {
    var q := DepsOf(deps, item.package)[i].package;
    assert (rest + [item])[|rest|] == item;
    StepReachable(deps, roots, item.package, q);
    DepInEverything(deps, roots, item.package, i);
    ListedMarks(roots, before, rest, seen, todo, q);
  }

  lemma MidwaySkips(deps: Deps, roots: set<Package>, item: Todo, before: set<Package>, rest: seq<Todo>,
                    seen: set<Package>, todo: seq<Todo>, i: nat)
    requires Midway(deps, roots, item, before, rest, seen, todo, i) && i < |DepsOf(deps, item.package)|
    requires var dep := DepsOf(deps, item.package)[i]; !(item.top || !dep.dev) || dep.package in seen
    ensures Midway(deps, roots, item, before, rest, seen, todo, i + 1)
  {
  }

  lemma MidwayDone(deps: Deps, roots: set<Package>, item: Todo, before: set<Package>, rest: seq<Todo>,
                   seen: set<Package>, todo: seq<Todo>)
    requires Consistent(deps, roots, before, rest + [item])
    requires Midway(deps, roots, item, before, rest, seen, todo, |DepsOf(deps, item.package)|)
    ensures Consistent(deps, roots, seen, todo)
    ensures before <= seen && (seen == before ==> todo == rest)
  {
    assert (rest + [item])[|rest|] == item;
    forall p | p in seen && !Waits(todo, p) ensures Followed(deps, roots, seen, p) {
      WaitsLonger(rest, item, p);
      if p != item.package {
        assert Followed(deps, roots, before, p);
      }
    }
  }

  /** Look at one package's dependencies: mark each new one and put it on the list. */
  method Follow(deps: Deps, roots: set<Package>, item: Todo, before: set<Package>, rest: seq<Todo>)
    returns (seen: set<Package>, todo: seq<Todo>)
    requires Consistent(deps, roots, before, rest + [item])
    ensures Consistent(deps, roots, seen, todo)
    ensures before <= seen && (seen == before ==> todo == rest)
  {
    seen, todo := before, rest;
    var all := DepsOf(deps, item.package);
    MidwayStarts(deps, roots, item, before, rest);
    for i := 0 to |all|
      invariant Midway(deps, roots, item, before, rest, seen, todo, i)
    {
      var dep := all[i];
      if (item.top || !dep.dev) && dep.package !in seen {
        MidwayMarks(deps, roots, item, before, rest, seen, todo, i);
        seen := seen + {dep.package};
        todo := todo + [Todo(dep.package, false)];
      } else {
        MidwaySkips(deps, roots, item, before, rest, seen, todo, i);
      }
    }
    MidwayDone(deps, roots, item, before, rest, seen, todo);
  }

  lemma MidwayStarts(deps: Deps, roots: set<Package>, item: Todo, before: set<Package>, rest: seq<Todo>)
    requires Consistent(deps, roots, before, rest + [item])
    ensures Midway(deps, roots, item, before, rest, before, rest, 0)
  {
    forall k | 0 <= k < |rest| ensures rest[k].package in before && rest[k].top == (rest[k].package in roots) {
      assert (rest + [item])[k] == rest[k];
    }
  }

  method RootList(deps: Deps, roots: set<Package>) returns (todo: seq<Todo>)
    ensures Consistent(deps, roots, roots, todo)
  {
    todo := [];
    var left := roots;
    while left != {}
      invariant left <= roots
      invariant forall k :: 0 <= k < |todo| ==> todo[k].package in roots && todo[k].top
      invariant forall p :: p in roots && p !in left ==> Waits(todo, p)
      decreases left
    {
      var r :| r in left;
      ghost var was := todo;
      todo := todo + [Todo(r, true)];
      left := left - {r};
      forall p | p in roots && p !in left ensures Waits(todo, p) {
        if p == r {
          assert todo[|was|].package == r;
        } else {
          assert Waits(was, p);
          var k :| 0 <= k < |was| && was[k].package == p;
          assert todo[k].package == p;
        }
      }
    }
    forall p | p in roots ensures Reachable(deps, roots, p) {
      RootReachable(deps, roots, p);
    }
  }

  lemma LessLeft(all: set<Package>, was: set<Package>, now: set<Package>)
    requires was <= now <= all && was != now
    ensures all - now < all - was
  {
    var p :| p in now && p !in was;
    assert p in all - was;
  }

  /** On any graph, cycles and all, the roots, what one edge of any kind from a root leads to, and
      what edges that aren't dev ones lead to from there; so the order of the list is no matter. */
  method Reach(deps: Deps, roots: set<Package>) returns (seen: set<Package>)
    ensures forall p :: p in seen <==> Reachable(deps, roots, p)
  {
    seen := roots;
    var todo := RootList(deps, roots);
    while todo != []
      invariant Consistent(deps, roots, seen, todo)
      decreases Everything(deps, roots) - seen, |todo|
    {
      seen, todo := LookAt(deps, roots, seen, todo);
    }
    ClosedHoldsAll(deps, roots, seen);
  }

  /** One turn of the loop: the package last listed. Either more has been seen or less is listed. */
  method LookAt(deps: Deps, roots: set<Package>, before: set<Package>, listed: seq<Todo>)
    returns (seen: set<Package>, todo: seq<Todo>)
    requires Consistent(deps, roots, before, listed) && listed != []
    ensures Consistent(deps, roots, seen, todo)
    ensures var all := Everything(deps, roots); all - seen < all - before || (seen == before && |todo| < |listed|)
  {
    var item := listed[|listed| - 1];
    assert listed == listed[..|listed| - 1] + [item];
    seen, todo := Follow(deps, roots, item, before, listed[..|listed| - 1]);
    if seen != before {
      LessLeft(Everything(deps, roots), before, seen);
    }
  }

  /** More roots reach no less. */
  lemma ReachMonotone(deps: Deps, roots: set<Package>, more: set<Package>, p: Package)
    requires roots <= more && Reachable(deps, roots, p)
    ensures Reachable(deps, more, p)
  {
    var path :| Path(deps, path) && path[0] in roots && path[|path| - 1] == p;
    assert path[0] in more;
  }
}
