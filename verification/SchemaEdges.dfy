/** The edges of the schema theorem's scope: what lies in it, and for each thing left out, a
    comparison that finds nothing of two releases that don't read each other. */
module SchemaEdges {
  import opened SchemaShapes
  import opened SchemaCompare
  import opened SchemaMeaning
  import opened SchemaGate

  // ── what a body reaches ────────────────────────────────────────────────────

  /** Every name a schema's definitions, or a body of its own, can mention. */
  ghost function Mentioned(shape: Shape): set<Name> {
    set f, n | f in Props(shape) && n in Refs(Props(shape)[f].ty) :: n
  }

  ghost function AllMentioned(schema: Schema, root: Shape): set<Name> {
    Mentioned(root) + set d, n | d in schema.defs && n in Mentioned(Shaped(d, schema.defs[d])) :: n
  }

  ghost function ReachablePairs(base: Schema, current: Schema, root: Node): set<Pair> {
    set a, b | a in AllMentioned(base, root.was) && b in AllMentioned(current, root.now)
               && Reachable(base, current, root, (a, b)) :: (a, b)
  }

  lemma ChildrenMentioned(was: Shape, now: Shape, p: Pair)
    requires p in Children(was, now)
    ensures p.0 in Mentioned(was) && p.1 in Mentioned(now)
  {
    var f :| f in Props(was).Keys * Props(now).Keys && p in FieldPairs(Props(was)[f].ty, Props(now)[f].ty);
    assert p.0 in Refs(Props(was)[f].ty) && p.1 in Refs(Props(now)[f].ty);
  }

  lemma EndMentioned(base: Schema, current: Schema, root: Node, front: seq<Pair>)
    requires Path(base, current, root, front)
    ensures var end := End(base, current, root, front);
            Mentioned(end.was) <= AllMentioned(base, root.was) && Mentioned(end.now) <= AllMentioned(current, root.now)
  {
    if front != [] {
      var q := front[|front| - 1];
      MentionedInDefs(base, root.was, q.0);
      MentionedInDefs(current, root.now, q.1);
    }
  }

  lemma MentionedInDefs(schema: Schema, root: Shape, name: Name)
    ensures Mentioned(Resolved(schema, name)) <= AllMentioned(schema, root)
  {
    if name in schema.defs {
      assert Resolved(schema, name) == Shaped(name, schema.defs[name]);
    }
  }

  lemma ReachableIsPair(base: Schema, current: Schema, root: Node, p: Pair)
    requires Reachable(base, current, root, p)
    ensures p in ReachablePairs(base, current, root)
  {
    var path :| path != [] && Path(base, current, root, path) && path[|path| - 1] == p;
    var front := path[..|path| - 1];
    assert path == front + [p];
    PathSplit(base, current, root, front, [p]);
    var end := End(base, current, root, front);
    LastIsChild(base, current, end, p);
    ChildrenMentioned(end.was, end.now, p);
    EndMentioned(base, current, root, front);
  }

  lemma LastIsChild(base: Schema, current: Schema, end: Node, p: Pair)
    requires Path(base, current, end, [p])
    ensures p in Children(end.was, end.now)
  {
    assert [p][0] == p;
  }

  lemma ChildIsReachable(base: Schema, current: Schema, root: Node, path: seq<Pair>, p: Pair)
    requires Path(base, current, root, path)
    requires var end := End(base, current, root, path); p in Children(end.was, end.now)
    ensures Reachable(base, current, root, p)
  {
    PathSplit(base, current, root, path, [p]);
    assert [p][1..] == [];
    assert (path + [p])[|path|] == p;
  }

  // ── what is in scope ───────────────────────────────────────────────────────

  lemma SameShapeSilent(side: Side, shape: Shape)
    ensures LocalBreaks(side, shape, shape) == {}
  {
    if side.Request? {
      assert RequestBreaks(shape, shape) == {};
    } else {
      assert ResponseBreaks(shape, shape) == {};
    }
  }

  /** Definitions that are the same in both releases, with all they name. */
  ghost predicate Unchanged(base: Schema, current: Schema, names: set<Name>) {
    forall n :: n in names ==>
      Resolved(base, n) == Resolved(current, n) && Beneath(Resolved(base, n), Resolved(base, n)) <= Same(names)
  }

  ghost function Same(names: set<Name>): set<Pair> {
    set n | n in names :: (n, n)
  }

  lemma SameInScope(shape: Shape)
    ensures InScope(shape, shape)
  {
    forall f | f in Props(shape) ensures Holds(Props(shape)[f].ty, Props(shape)[f].ty) {
      UnchangedMatches(Props(shape)[f].ty, Props(shape)[f].ty);
    }
    forall t | t in Variants(shape) ensures Holds(Variants(shape)[t], Variants(shape)[t]) {
      UnchangedMatches(Variants(shape)[t], Variants(shape)[t]);
    }
  }

  /** What the walk comes to is in scope, and what the enums there name is unchanged. */
  ghost predicate EnumsUnchanged(base: Schema, current: Schema, root: Node, names: set<Name>) {
    && Unchanged(base, current, names)
    && Beneath(root.was, root.now) <= Children(root.was, root.now) + Same(names)
    && forall p :: Reachable(base, current, root, p) ==>
         var (was, now) := (Resolved(base, p.0), Resolved(current, p.1));
         InScope(was, now) && Beneath(was, now) <= Children(was, now) + Same(names)
  }

  lemma ReachedBelow(base: Schema, current: Schema, root: Node, p: Pair, q: Pair)
    requires Reachable(base, current, root, p) && q in Children(Resolved(base, p.0), Resolved(current, p.1))
    ensures Reachable(base, current, root, q)
  {
    var path :| path != [] && Path(base, current, root, path) && path[|path| - 1] == p;
    ChildIsReachable(base, current, root, path, q);
  }

  /** A body all of whose enums name only what is unchanged, enums that name nothing among them, is
      in the theorem's scope. */
  lemma UnchangedEnumsInScope(side: Side, base: Schema, current: Schema, root: Node, names: set<Name>)
    requires Stands(base, current, root) && InScope(root.was, root.now) && EnumsUnchanged(base, current, root, names)
    ensures ScopeBelow(side, base, current, root)
  {
    var pairs := ReachablePairs(base, current, root) + Same(names);
    forall q | q in Beneath(root.was, root.now) ensures q in pairs {
      if q in Children(root.was, root.now) {
        ChildIsReachable(base, current, root, [], q);
        ReachableIsPair(base, current, root, q);
      }
    }
    forall p | p in pairs
      ensures var (was, now) := (Resolved(base, p.0), Resolved(current, p.1));
              && InScope(was, now) && Beneath(was, now) <= pairs
              && (Reachable(base, current, root, p) || LocalBreaks(side, was, now) == {})
    {
      var (was, now) := (Resolved(base, p.0), Resolved(current, p.1));
      if Reachable(base, current, root, p) {
        forall q | q in Beneath(was, now) ensures q in pairs {
          if q in Children(was, now) {
            ReachedBelow(base, current, root, p, q);
            ReachableIsPair(base, current, root, q);
          }
        }
      } else {
        SameInScope(was);
        SameShapeSilent(side, was);
      }
    }
    assert Surveyed(side, base, current, root, pairs);
  }

  /** A type renamed where it names its one definition is in scope too. */
  lemma {:induction false} RenamedMatches(was: Ty, now: Ty, a: Name, b: Name, pairs: set<Pair>)
    requires now == Rename(was, a, b) && Refs(was) <= {a} && (a, b) in pairs
    ensures Matches(was, now, pairs)
    decreases was
  {
    match was
    case ListOf(item) => RenamedMatches(item, Rename(item, a, b), a, b, pairs);
    case DictOf(item) => RenamedMatches(item, Rename(item, a, b), a, b, pairs);
    case AnyOf(branches) =>
      forall i | 0 <= i < |branches| ensures Matches(branches[i], Rename(branches[i], a, b), pairs) {
        assert Refs(branches[i]) <= Refs(was);
        RenamedMatches(branches[i], Rename(branches[i], a, b), a, b, pairs);
      }
    case Ref(n) => assert n in Refs(was);
    case _ =>
  }

  function Rename(ty: Ty, a: Name, b: Name): Ty {
    match ty
    case Ref(n) => if n == a then Ref(b) else ty
    case ListOf(item) => ListOf(Rename(item, a, b))
    case DictOf(item) => DictOf(Rename(item, a, b))
    case AnyOf(branches) => AnyOf(seq(|branches|, i requires 0 <= i < |branches| => Rename(branches[i], a, b)))
    case _ => ty
  }

  // ── a schema of one route ──────────────────────────────────────────────────

  const KEY: RouteKey := ("POST", "/route")

  /** One route, with one body, on one side. */
  function Serving(side: Side, slot: Slot, defs: map<Name, Def>): Schema {
    var (request, response) := if side.Request? then (slot, NoBody) else (NoBody, slot);
    Schema(map[KEY := Route(request, NoBody, response, {}, map[])], defs)
  }

  /** All the comparison finds of two such schemas is what it finds of their bodies. */
  lemma ServingBreaks(side: Side, was: Slot, now: Slot, before: map<Name, Def>, after: map<Name, Def>)
    ensures var (base, current) := (Serving(side, was, before), Serving(side, now, after));
            CompareBreaks(base, current) == BodyBreaks(base, current, side, was, now)
  {
    var (base, current) := (Serving(side, was, before), Serving(side, now, after));
    assert base.routes.Keys == {KEY} && current.routes.Keys == {KEY};
    assert GoneRoutes(base, current) == {};
    assert base.routes.Keys * current.routes.Keys == {KEY};
    assert RoutesBreaks(base, current, {KEY}) == RouteBreaks(base, current, KEY);
    assert BodyBreaks(base, current, Request, NoBody, NoBody) == {};
    assert BodyBreaks(base, current, Response, NoBody, NoBody) == {};
    OneBody(side, was, now, before, after);
  }

  lemma OneBody(side: Side, was: Slot, now: Slot, before: map<Name, Def>, after: map<Name, Def>)
    ensures var (base, current) := (Serving(side, was, before), Serving(side, now, after));
            RouteBreaks(base, current, KEY) == BodyBreaks(base, current, side, was, now)
  {
    var (base, current) := (Serving(side, was, before), Serving(side, now, after));
    assert BodyBreaks(base, current, Request, NoBody, NoBody) == {};
    assert BodyBreaks(base, current, Response, NoBody, NoBody) == {};
    var (r, s) := (base.routes[KEY], current.routes[KEY]);
    assert r.events.Keys * s.events.Keys == {};
    assert EventBreaks(base, current, r, s, {}) == {};
  }

  // ── an enum's variant ──────────────────────────────────────────────────────

  function Defs(inner: Def): map<Name, Def> {
    map["body" := Object(map["f" := Prop(Ref("choice"), false)], {"f"}),
        "choice" := Enum(map["only" := Ref("inner")]),
        "inner" := inner]
  }

  /** A route whose body holds an enum, whose one variant carries the definition `inner`. */
  function Wrapped(side: Side, inner: Def): Schema {
    Serving(side, BodyRef("body"), Defs(inner))
  }

  lemma EnumWalk(side: Side, was: Def, now: Def, seen: set<Pair>)
    ensures var choice := Resolved(Wrapped(side, was), "choice");
      Walk(Wrapped(side, was), Wrapped(side, now), RuleOf(side), choice, choice, seen) == {}
  {
    var (base, current, choice) := (Wrapped(side, was), Wrapped(side, now), Resolved(Wrapped(side, was), "choice"));
    SameShapeSilent(side, choice);
    assert Children(choice, choice) == {};
    if ("choice", "choice") !in seen {
      SeenShrinks(base, current, seen, ("choice", "choice"));
      assert Below(base, current, RuleOf(side), {}, seen + {("choice", "choice")}) == {};
    }
  }

  lemma BodyChildren(side: Side, was: Def)
    ensures var body := Resolved(Wrapped(side, was), "body"); Children(body, body) == {("choice", "choice")}
  {
    var body := Resolved(Wrapped(side, was), "body");
    assert Refs(Ref("choice")) * Refs(Ref("choice")) == {"choice"};
    assert FieldPairs(Ref("choice"), Ref("choice")) == {("choice", "choice")};
    assert Props(body).Keys * Props(body).Keys == {"f"};
    assert "f" in Props(body).Keys * Props(body).Keys;
  }

  lemma EnumBodyWalk(side: Side, was: Def, now: Def)
    ensures BodyBreaks(Wrapped(side, was), Wrapped(side, now), side, BodyRef("body"), BodyRef("body")) == {}
  {
    var (base, current) := (Wrapped(side, was), Wrapped(side, now));
    var body := Resolved(base, "body");
    var seen: set<Pair> := {} + {("body", "body")};
    assert body == Resolved(current, "body") && Resolved(base, "choice") == Resolved(current, "choice");
    BodyChildren(side, was);
    SameShapeSilent(side, body);
    EnumWalk(side, was, now, seen);
    assert Below(base, current, RuleOf(side), {("choice", "choice")}, seen) == {};
    assert Walk(base, current, RuleOf(side), body, body, {}) == {};
  }

  /** A message the new `inner` can't read is one it can't read inside the enum. */
  lemma EnumMisread(side: Side, was: Def, now: Def, v: Json)
    requires WritesShape(Wrapped(side, was), Shaped("inner", was), v)
    requires !ReadsShape(side, Wrapped(side, now), Shaped("inner", now), v)
    ensures !ReadBothWays(side, Wrapped(side, was), Wrapped(side, now), BodyRef("body"), BodyRef("body"))
  {
    var (base, current) := (Wrapped(side, was), Wrapped(side, now));
    var chosen := Obj(map["only" := v]);
    var message := Obj(map["f" := chosen]);
    var variants := map["only" := Ref("inner")];
    assert Resolved(base, "inner") == Shaped("inner", was) && Resolved(current, "inner") == Shaped("inner", now);
    assert Writes(base, Ref("inner"), v) && !Reads(side, current, Ref("inner"), v);
    assert "only" in variants && chosen.fields.Keys == {"only"};
    assert WritesShape(base, Resolved(base, "choice"), chosen);
    assert !ReadsShape(side, current, Resolved(current, "choice"), chosen);
    assert Writes(base, Ref("choice"), chosen) && !Reads(side, current, Ref("choice"), chosen);
    assert WritesShape(base, Resolve(base, BodyRef("body")), message);
    var props := Props(Resolved(current, "body"));
    assert "f" in message.fields && "f" in props && props["f"].ty == Ref("choice");
    assert !ReadsShape(side, current, Resolve(current, BodyRef("body")), message);
  }

  /** The walk goes down properties alone, so it never sees what an enum's variants name: whatever
      message the new `inner` can't read, a route through the enum hides, on either side. */
  lemma EnumHidesBreak(side: Side, was: Def, now: Def, v: Json)
    requires WritesShape(Wrapped(side, was), Shaped("inner", was), v)
    requires !ReadsShape(side, Wrapped(side, now), Shaped("inner", now), v)
    ensures CompareBreaks(Wrapped(side, was), Wrapped(side, now)) == {}
    ensures !ReadBothWays(side, Wrapped(side, was), Wrapped(side, now), BodyRef("body"), BodyRef("body"))
  {
    EnumBodyWalk(side, was, now);
    ServingBreaks(side, BodyRef("body"), BodyRef("body"), Defs(was), Defs(now));
    EnumMisread(side, was, now, v);
  }

  // ── a definition named as an inline body is ────────────────────────────────

  function Inlined(required: set<Field>): Schema {
    Serving(Request, BodyInline(Above()), map[INLINE := Object(map["g" := Prop(NullTy, false)], required)])
  }

  function Above(): Def {
    Object(map["f" := Prop(Ref(INLINE), false)], {})
  }

  lemma InlineWalk()
    ensures BodyBreaks(Inlined({}), Inlined({"g"}), Request, BodyInline(Above()), BodyInline(Above())) == {}
  {
    var (base, current) := (Inlined({}), Inlined({"g"}));
    var root := Shaped(INLINE, Above());
    SameShapeSilent(Request, root);
    assert Refs(Ref(INLINE)) * Refs(Ref(INLINE)) == {INLINE};
    assert FieldPairs(Ref(INLINE), Ref(INLINE)) == {(INLINE, INLINE)};
    assert Props(root).Keys * Props(root).Keys == {"f"};
    assert "f" in Props(root).Keys * Props(root).Keys;
    assert Children(root, root) == {(INLINE, INLINE)};
    var seen: set<Pair> := {} + {(INLINE, INLINE)};
    assert Walk(base, current, RuleOf(Request), Resolved(base, INLINE), Resolved(current, INLINE), seen) == {};
    assert Below(base, current, RuleOf(Request), Children(root, root), seen) == {};
  }

  /** Why a root has to stand: an inline body above a definition that carries its placeholder name
      is taken for it, and what the definition newly requires goes unseen. */
  lemma InlineNameHidesBreak()
    ensures CompareBreaks(Inlined({}), Inlined({"g"})) == {}
    ensures !ReadBothWays(Request, Inlined({}), Inlined({"g"}), BodyInline(Above()), BodyInline(Above()))
  {
    var (base, current) := (Inlined({}), Inlined({"g"}));
    InlineWalk();
    ServingBreaks(Request, BodyInline(Above()), BodyInline(Above()), base.defs, current.defs);
    var (inner, root) := (Obj(map[]), Shaped(INLINE, Above()));
    var message := Obj(map["f" := inner]);
    assert WritesShape(base, Resolved(base, INLINE), inner) && Writes(base, Ref(INLINE), inner);
    assert Needs(Request, Resolved(current, INLINE), "g") && "g" !in inner.fields;
    assert !Reads(Request, current, Ref(INLINE), inner);
    assert WritesShape(base, root, message);
    assert "f" in message.fields && "f" in Props(root);
    assert !ReadsShape(Request, current, root, message);
    assert Resolve(base, BodyInline(Above())) == root == Resolve(current, BodyInline(Above()));
  }

  // ── a required name that is no field ───────────────────────────────────────

  /** A name that was required, isn't any more and is a field of neither: no rule says a word. */
  lemma UnlistedNeedHidden(side: Side, was: Shape, now: Shape, f: Field)
    requires f in Required(was) && f !in Required(now) && f !in Props(was) && f !in Props(now)
    requires was.Shaped? && now.Shaped?
    ensures forall b :: b in LocalBreaks(side, was, now) ==> b.field != f
  {
  }

  function Needing(side: Side, required: set<Field>): Schema {
    Serving(side, BodyRef("body"), map["body" := Object(map[], required)])
  }

  lemma NeedUnseen(side: Side)
    ensures BodyBreaks(Needing(side, {"f"}), Needing(side, {}), side, BodyRef("body"), BodyRef("body")) == {}
  {
    var (base, current) := (Needing(side, {"f"}), Needing(side, {}));
    var (was, now) := (Resolved(base, "body"), Resolved(current, "body"));
    assert Children(was, now) == {} && Props(was) == map[] == Props(now);
    UnlistedNeedHidden(side, was, now, "f");
    assert Required(now) - Required(was) == {};
    assert LocalBreaks(side, was, now) == {};
    assert Below(base, current, RuleOf(side), {}, {} + {("body", "body")}) == {};
  }

  /** And the side that requires it refuses what the other, which has no such field, writes. */
  lemma UnlistedNeedHidesBreak(side: Side)
    ensures CompareBreaks(Needing(side, {"f"}), Needing(side, {})) == {}
    ensures !ReadBothWays(side, Needing(side, {"f"}), Needing(side, {}), BodyRef("body"), BodyRef("body"))
  {
    var (base, current) := (Needing(side, {"f"}), Needing(side, {}));
    ServingBreaks(side, BodyRef("body"), BodyRef("body"), base.defs, current.defs);
    NeedUnseen(side);
    var message := Obj(map[]);
    assert WritesShape(current, Resolved(current, "body"), message);
    assert Needs(side, Resolved(base, "body"), "f") && "f" !in message.fields;
  }

  // ── the rule is stricter than reading ──────────────────────────────────────

  function Optional(props: map<Field, Prop>): Schema {
    Serving(Request, BodyRef("body"), map["body" := Object(props, {})])
  }

  /** The promise is one way: a field taken out of a request is a break, though where it was never
      required each release reads all that the other writes. */
  lemma BreakThoughRead()
    ensures var (base, current) := (Optional(map["f" := Prop(NullTy, false)]), Optional(map[]));
            && CompareBreaks(base, current) != {}
            && ReadBothWays(Request, base, current, BodyRef("body"), BodyRef("body"))
  {
    var (base, current) := (Optional(map["f" := Prop(NullTy, false)]), Optional(map[]));
    var (was, now) := (Resolved(base, "body"), Resolved(current, "body"));
    ServingBreaks(Request, BodyRef("body"), BodyRef("body"), base.defs, current.defs);
    assert "f" in Props(was).Keys - Props(now).Keys;
    assert RequestFieldGone("body", "f") in RequestBreaks(was, now);
    assert RequestFieldGone("body", "f") in BodyBreaks(base, current, Request, BodyRef("body"), BodyRef("body"));
    assert Resolve(base, BodyRef("body")) == was && Resolve(current, BodyRef("body")) == now;
    assert Props(now) == map[] && Required(was) == {} == Required(now);
  }

  function Answering(props: map<Field, Prop>, required: set<Field>): Schema {
    Serving(Response, BodyRef("body"), map["body" := Object(props, required)])
  }

  /** So is a nullable field of an answer that is required from now on: an older daemon leaves it out,
      and the client takes that for null. */
  lemma NullableNeedThoughRead()
    ensures var (base, current) := (Answering(map["f" := Prop(NullTy, false)], {}),
                                    Answering(map["f" := Prop(NullTy, false)], {"f"}));
            && CompareBreaks(base, current) != {}
            && ReadBothWays(Response, base, current, BodyRef("body"), BodyRef("body"))
  {
    var props := map["f" := Prop(NullTy, false)];
    var (base, current) := (Answering(props, {}), Answering(props, {"f"}));
    var (was, now) := (Resolved(base, "body"), Resolved(current, "body"));
    ServingBreaks(Response, BodyRef("body"), BodyRef("body"), base.defs, current.defs);
    assert "f" in Required(now) - Required(was) && !Defaulted(Props(now), "f");
    assert RequiredNoDefault("body", "f") in ResponseBreaks(was, now);
    assert RequiredNoDefault("body", "f") in BodyBreaks(base, current, Response, BodyRef("body"), BodyRef("body"));
    assert Resolve(base, BodyRef("body")) == was && Resolve(current, BodyRef("body")) == now;
    forall v
      ensures WritesShape(base, was, v) ==> ReadsShape(Response, current, now, v)
      ensures WritesShape(current, now, v) ==> ReadsShape(Response, base, was, v)
    {
      NullFieldRead(base, {}, current, {"f"}, v);
      NullFieldRead(current, {"f"}, base, {}, v);
    }
  }

  lemma NullFieldRead(from: Schema, written: set<Field>, to: Schema, required: set<Field>, v: Json)
    requires required <= {"f"}
    ensures var props := map["f" := Prop(NullTy, false)];
            WritesShape(from, Shaped("body", Object(props, written)), v) ==>
              ReadsShape(Response, to, Shaped("body", Object(props, required)), v)
  {
    var props := map["f" := Prop(NullTy, false)];
    var now := Shaped("body", Object(props, required));
    assert forall f :: f in Required(now) ==> f == "f" && Nullable(Props(now), f);
    if WritesShape(from, Shaped("body", Object(props, written)), v) {
      forall f | f in v.fields && f in props ensures Reads(Response, to, props[f].ty, v.fields[f]) {
        assert props[f].ty == NullTy && Writes(from, props[f].ty, v.fields[f]);
      }
    }
  }

  /** And one that is gone. */
  lemma NullableGoneThoughRead()
    ensures var (base, current) := (Answering(map["f" := Prop(NullTy, false)], {"f"}), Answering(map[], {}));
            && CompareBreaks(base, current) != {}
            && ReadBothWays(Response, base, current, BodyRef("body"), BodyRef("body"))
  {
    var (base, current) := (Answering(map["f" := Prop(NullTy, false)], {"f"}), Answering(map[], {}));
    var (was, now) := (Resolved(base, "body"), Resolved(current, "body"));
    ServingBreaks(Response, BodyRef("body"), BodyRef("body"), base.defs, current.defs);
    assert "f" in Props(was).Keys - Props(now).Keys;
    assert ResponseFieldGone("body", "f") in ResponseBreaks(was, now);
    assert ResponseFieldGone("body", "f") in BodyBreaks(base, current, Response, BodyRef("body"), BodyRef("body"));
    assert Resolve(base, BodyRef("body")) == was && Resolve(current, BodyRef("body")) == now;
    assert forall f :: !Needs(Response, was, f) && !Needs(Response, now, f);
    assert Props(now) == map[];
  }
}
