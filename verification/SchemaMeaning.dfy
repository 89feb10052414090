/** What the comparison is for: when it finds nothing, each peer reads what the other writes. */
module SchemaMeaning {
  import opened SchemaShapes
  import opened SchemaCompare

  datatype Json =
    | Null
    | Atom(kind: string, text: string)
    | Arr(items: seq<Json>)
    | Obj(fields: map<string, Json>)

  // ── writing and reading ────────────────────────────────────────────────────

  /** What a peer of `schema` may write where its schema says `ty`: an object with every required
      field and no field the schema doesn't have. */
  ghost predicate Writes(schema: Schema, ty: Ty, v: Json)
    decreases v, 1, ty
  {
    match ty
    case Scalar(kind) => v.Atom? && v.kind == kind
    case NullTy => v.Null?
    case ListOf(item) => v.Arr? && forall i :: 0 <= i < |v.items| ==> Writes(schema, item, v.items[i])
    case DictOf(item) => v.Obj? && forall f :: f in v.fields ==> Writes(schema, item, v.fields[f])
    case AnyOf(branches) => exists i :: 0 <= i < |branches| && Writes(schema, branches[i], v)
    case Ref(name) => WritesShape(schema, Resolved(schema, name), v)
  }

  ghost predicate WritesShape(schema: Schema, shape: Shape, v: Json)
    decreases v, 0
  {
    match shape
    case Absent => v == Obj(map[])
    case Shaped(_, Object(props, required)) =>
      v.Obj? && v.fields.Keys <= props.Keys && required <= v.fields.Keys &&
      forall f :: f in v.fields ==> Writes(schema, props[f].ty, v.fields[f])
    case Shaped(_, Enum(variants)) =>
      v.Obj? && exists tag :: tag in variants && v.fields.Keys == {tag} && Writes(schema, variants[tag], v.fields[tag])
    case Shaped(_, Plain(kind)) => v.Atom? && v.kind == kind
  }

  /** The fields a reader can't do without. */
  ghost predicate Needs(side: Side, shape: Shape, f: Field) {
    f in Required(shape) &&
    (side.Response? ==> !Defaulted(Props(shape), f) && !Nullable(Props(shape), f))
  }

  /** What a peer of `schema` reads where its schema says `ty`, as serde does: an unknown field is
      ignored, and one it can do without may be absent. */
  ghost predicate Reads(side: Side, schema: Schema, ty: Ty, v: Json)
    decreases v, 1, ty
  {
    match ty
    case Scalar(kind) => v.Atom? && v.kind == kind
    case NullTy => v.Null?
    case ListOf(item) => v.Arr? && forall i :: 0 <= i < |v.items| ==> Reads(side, schema, item, v.items[i])
    case DictOf(item) => v.Obj? && forall f :: f in v.fields ==> Reads(side, schema, item, v.fields[f])
    case AnyOf(branches) => exists i :: 0 <= i < |branches| && Reads(side, schema, branches[i], v)
    case Ref(name) => ReadsShape(side, schema, Resolved(schema, name), v)
  }

  ghost predicate ReadsShape(side: Side, schema: Schema, shape: Shape, v: Json)
    decreases v, 0
  {
    match shape
    case Absent => true
    case Shaped(_, Object(props, required)) =>
      v.Obj? && (forall f :: Needs(side, shape, f) ==> f in v.fields) &&
      forall f :: f in v.fields && f in props ==> Reads(side, schema, props[f].ty, v.fields[f])
    case Shaped(_, Enum(variants)) =>
      v.Obj? && exists tag :: tag in variants && v.fields.Keys == {tag}
                              && Reads(side, schema, variants[tag], v.fields[tag])
    case Shaped(_, Plain(kind)) => v.Atom? && v.kind == kind
  }

  // ── simulations ────────────────────────────────────────────────────────────

  /** Two types of one form, each definition named in the one paired with the one named in its
      place in the other. */
  ghost predicate Matches(writer: Ty, reader: Ty, pairs: set<Pair>) {
    match (writer, reader)
    case (Ref(a), Ref(b)) => (a, b) in pairs
    case (Scalar(k), Scalar(l)) => k == l
    case (NullTy, NullTy) => true
    case (ListOf(a), ListOf(b)) => Matches(a, b, pairs)
    case (DictOf(a), DictOf(b)) => Matches(a, b, pairs)
    case (AnyOf(a), AnyOf(b)) => |a| == |b| && forall i :: 0 <= i < |a| ==> Matches(a[i], b[i], pairs)
    case _ => false
  }

  /** Each message the writer's shape allows has what the reader's needs, field by field. */
  ghost predicate Feeds(side: Side, writer: Shape, reader: Shape, pairs: set<Pair>) {
    && (forall f :: Needs(side, reader, f) ==> f in Required(writer))
    && (forall f :: f in Props(writer) && f in Props(reader) ==>
                      Matches(Props(writer)[f].ty, Props(reader)[f].ty, pairs))
    && (forall t :: t in Variants(writer) && t in Variants(reader) ==>
                      Matches(Variants(writer)[t], Variants(reader)[t], pairs))
    && SameForm(writer, reader)
  }

  predicate IsObject(shape: Shape) {
    shape.Shaped? && shape.def.Object?
  }

  /** An enum's variants; any other shape has none. */
  function Variants(shape: Shape): map<string, Ty> {
    if shape.Shaped? && shape.def.Enum? then shape.def.variants else map[]
  }

  /** Both are objects or nothing; or one scalar; or enums of the same tags. */
  ghost predicate SameForm(a: Shape, b: Shape) {
    || ((a.Absent? || IsObject(a)) && (b.Absent? || IsObject(b)))
    || (a.Shaped? && b.Shaped? && a.def.Plain? && a.def == b.def)
    || (a.Shaped? && b.Shaped? && a.def.Enum? && b.def.Enum? && Variants(a).Keys == Variants(b).Keys)
  }

  /** `pairs` relates definitions so that whatever one release writes at the first of a pair the
      other can read at the second. */
  ghost predicate Simulation(side: Side, writer: Schema, reader: Schema, pairs: set<Pair>) {
    forall p :: p in pairs ==> Feeds(side, Resolved(writer, p.0), Resolved(reader, p.1), pairs)
  }

  /** Along a simulation every message carries over, to any depth. */
  lemma {:induction false} SimulationCarries(side: Side, writer: Schema, reader: Schema, pairs: set<Pair>,
                                             a: Ty, b: Ty, v: Json)
    requires Simulation(side, writer, reader, pairs) && Matches(a, b, pairs) && Writes(writer, a, v)
    ensures Reads(side, reader, b, v)
    decreases v, 1, a
  {
    match (a, b)
    case (ListOf(x), ListOf(y)) =>
      forall i | 0 <= i < |v.items| ensures Reads(side, reader, y, v.items[i]) {
        SimulationCarries(side, writer, reader, pairs, x, y, v.items[i]);
      }
    case (DictOf(x), DictOf(y)) =>
      forall f | f in v.fields ensures Reads(side, reader, y, v.fields[f]) {
        SimulationCarries(side, writer, reader, pairs, x, y, v.fields[f]);
      }
    case (AnyOf(xs), AnyOf(ys)) =>
      var i :| 0 <= i < |xs| && Writes(writer, xs[i], v);
      SimulationCarries(side, writer, reader, pairs, xs[i], ys[i], v);
    case (Ref(m), Ref(n)) =>
      ShapeCarries(side, writer, reader, pairs, Resolved(writer, m), Resolved(reader, n), v);
    case _ =>
  }

  lemma {:induction false} ShapeCarries(side: Side, writer: Schema, reader: Schema, pairs: set<Pair>,
                                        a: Shape, b: Shape, v: Json)
    requires Simulation(side, writer, reader, pairs) && Feeds(side, a, b, pairs) && WritesShape(writer, a, v)
    ensures ReadsShape(side, reader, b, v)
    decreases v, 0
  {
    if IsObject(b) {
      assert v.Obj?;
      forall f | f in v.fields && f in Props(b) ensures Reads(side, reader, Props(b)[f].ty, v.fields[f]) {
        assert f in Props(a);
        SimulationCarries(side, writer, reader, pairs, Props(a)[f].ty, Props(b)[f].ty, v.fields[f]);
      }
    } else if b.Shaped? && b.def.Enum? {
      var tag :| tag in a.def.variants && v.fields.Keys == {tag} && Writes(writer, a.def.variants[tag], v.fields[tag]);
      assert tag in Variants(a) && tag in Variants(b);
      SimulationCarries(side, writer, reader, pairs, Variants(a)[tag], Variants(b)[tag], v.fields[tag]);
      assert tag in b.def.variants && Reads(side, reader, b.def.variants[tag], v.fields[tag]);
    }
  }

  // ── from no break to a simulation, both ways ───────────────────────────────

  /** A pair of shapes inside the comparison's scope: the types of their shared fields, and of their
      variants, are of one form, with each definition named in one held against the one in its
      place (so no type changed); and a field that is required no longer is one of their fields. */
  ghost predicate InScope(was: Shape, now: Shape) {
    && SameForm(was, now)
    && Required(was) - Required(now) <= Props(was).Keys + Props(now).Keys
    && (forall f :: f in Props(was) && f in Props(now) ==> Holds(Props(was)[f].ty, Props(now)[f].ty))
    && (forall t :: t in Variants(was) && t in Variants(now) ==> Holds(Variants(was)[t], Variants(now)[t]))
  }

  ghost predicate Holds(was: Ty, now: Ty) {
    Matches(was, now, FieldPairs(was, now))
  }

  /** The pairs of definitions the types of two shapes name, the variants of enums included. */
  ghost function Beneath(was: Shape, now: Shape): set<Pair> {
    Children(was, now)
    + set t, p | t in Variants(was).Keys * Variants(now).Keys
                 && p in FieldPairs(Variants(was)[t], Variants(now)[t]) :: p
  }

  ghost function Flip(pairs: set<Pair>): set<Pair> {
    set p | p in pairs :: (p.1, p.0)
  }

  lemma {:induction false} MatchesMore(a: Ty, b: Ty, pairs: set<Pair>, more: set<Pair>)
    requires Matches(a, b, pairs) && pairs <= more
    ensures Matches(a, b, more) && Matches(b, a, Flip(more))
    decreases a
  {
    match (a, b)
    case (ListOf(x), ListOf(y)) => MatchesMore(x, y, pairs, more);
    case (DictOf(x), DictOf(y)) => MatchesMore(x, y, pairs, more);
    case (AnyOf(xs), AnyOf(ys)) =>
      forall i | 0 <= i < |xs| ensures Matches(xs[i], ys[i], more) && Matches(ys[i], xs[i], Flip(more)) {
        MatchesMore(xs[i], ys[i], pairs, more);
      }
    case (Ref(m), Ref(n)) => assert (m, n) in more;
    case _ =>
  }

  /** A need of the new side that the old doesn't promise is a break. */
  lemma NewNeedBreaks(side: Side, was: Shape, now: Shape, f: Field)
    requires Needs(side, now, f) && f !in Required(was)
    ensures LocalBreaks(side, was, now) != {}
  {
    assert f in Required(now) - Required(was);
    if side.Request? {
      assert RequiredNow(NameOf(now), f) in RequestBreaks(was, now);
    } else {
      assert RequiredNoDefault(NameOf(now), f) in ResponseBreaks(was, now);
    }
  }

  /** And so is a need of the old side that the new no longer promises, of a field of either. */
  lemma OldNeedBreaks(side: Side, was: Shape, now: Shape, f: Field)
    requires Needs(side, was, f) && f !in Required(now) && (f in Props(was) || f in Props(now))
    ensures LocalBreaks(side, was, now) != {}
  {
    if f in Props(now) {
      assert f in (Required(was) - Required(now)) * Props(now).Keys;
      if side.Request? {
        assert NotRequiredNow(NameOf(now), f) in RequestBreaks(was, now);
      } else {
        assert MayBeAbsentNow(NameOf(now), f) in ResponseBreaks(was, now);
      }
    } else {
      assert f in Props(was).Keys - Props(now).Keys;
      if side.Request? {
        assert RequestFieldGone(NameOf(was), f) in RequestBreaks(was, now);
      } else if now.Absent? {
        assert ResponseGone(NameOf(was)) in ResponseBreaks(was, now);
      } else {
        assert ResponseFieldGone(NameOf(was), f) in ResponseBreaks(was, now);
      }
    }
  }

  lemma HeldBothWays(was: Ty, now: Ty, pairs: set<Pair>)
    requires Holds(was, now) && FieldPairs(was, now) <= pairs
    ensures Matches(was, now, pairs) && Matches(now, was, Flip(pairs))
  {
    MatchesMore(was, now, FieldPairs(was, now), pairs);
  }

  lemma NoBreakFeeds(side: Side, was: Shape, now: Shape, pairs: set<Pair>)
    requires LocalBreaks(side, was, now) == {} && InScope(was, now) && Beneath(was, now) <= pairs
    ensures Feeds(side, was, now, pairs) && Feeds(side, now, was, Flip(pairs))
  {
    forall f | Needs(side, now, f) ensures f in Required(was) {
      if f !in Required(was) {
        NewNeedBreaks(side, was, now, f);
      }
    }
    forall f | Needs(side, was, f) ensures f in Required(now) {
      if f !in Required(now) {
        assert f in Required(was) - Required(now);
        OldNeedBreaks(side, was, now, f);
      }
    }
    forall f | f in Props(was) && f in Props(now)
      ensures Matches(Props(was)[f].ty, Props(now)[f].ty, pairs)
      ensures Matches(Props(now)[f].ty, Props(was)[f].ty, Flip(pairs))
    {
      FieldBeneath(was, now, f);
      HeldBothWays(Props(was)[f].ty, Props(now)[f].ty, pairs);
    }
    forall t | t in Variants(was) && t in Variants(now)
      ensures Matches(Variants(was)[t], Variants(now)[t], pairs)
      ensures Matches(Variants(now)[t], Variants(was)[t], Flip(pairs))
    {
      VariantBeneath(was, now, t);
      HeldBothWays(Variants(was)[t], Variants(now)[t], pairs);
    }
  }

  lemma FieldBeneath(was: Shape, now: Shape, f: Field)
    requires f in Props(was) && f in Props(now)
    ensures FieldPairs(Props(was)[f].ty, Props(now)[f].ty) <= Beneath(was, now)
  {
    assert f in Props(was).Keys * Props(now).Keys;
  }

  lemma VariantBeneath(was: Shape, now: Shape, t: string)
    requires t in Variants(was) && t in Variants(now)
    ensures FieldPairs(Variants(was)[t], Variants(now)[t]) <= Beneath(was, now)
  {
    assert t in Variants(was).Keys * Variants(now).Keys;
  }

  // ── what a body reaches ────────────────────────────────────────────────────

  ghost predicate Reachable(base: Schema, current: Schema, root: Node, p: Pair) {
    exists path :: path != [] && Path(base, current, root, path) && path[|path| - 1] == p
  }

  /** `pairs` holds all that is beneath the root, and beneath each of them: in scope, and one the
      walk comes to or one that breaks nothing. */
  ghost predicate Surveyed(side: Side, base: Schema, current: Schema, root: Node, pairs: set<Pair>) {
    && Beneath(root.was, root.now) <= pairs
    && forall p :: p in pairs ==>
         var (was, now) := (Resolved(base, p.0), Resolved(current, p.1));
         && InScope(was, now) && Beneath(was, now) <= pairs
         && (Reachable(base, current, root, p) || LocalBreaks(side, was, now) == {})
  }

  /** What the theorem asks of a body: besides the comparison's own scope, that nothing breaks where
      its walk doesn't go, among the definitions only an enum's variants name. */
  ghost predicate ScopeBelow(side: Side, base: Schema, current: Schema, root: Node) {
    && Stands(base, current, root) && InScope(root.was, root.now)
    && exists pairs :: Surveyed(side, base, current, root, pairs)
  }

  lemma NoBreakAt(base: Schema, current: Schema, rule: Rule, root: Node, path: seq<Pair>)
    requires Stands(base, current, root) && Path(base, current, root, path) && SilentOnNothing(rule)
    requires Walk(base, current, rule, root.was, root.now, {}) == {}
    ensures rule(End(base, current, root, path).was, End(base, current, root, path).now) == {}
  {
    var broken := rule(End(base, current, root, path).was, End(base, current, root, path).now);
    if broken != {} {
      var b :| b in broken;
      ReachedIsWalked(base, current, rule, root, path, b);
    }
  }

  /** When the walk from a body finds nothing, the pairs beneath it are a simulation both ways. */
  lemma NoBreakSimulation(base: Schema, current: Schema, side: Side, root: Node, pairs: set<Pair>)
    requires Stands(base, current, root) && InScope(root.was, root.now) && Surveyed(side, base, current, root, pairs)
    requires Walk(base, current, RuleOf(side), root.was, root.now, {}) == {}
    ensures Simulation(side, base, current, pairs) && Simulation(side, current, base, Flip(pairs))
    ensures Feeds(side, root.was, root.now, pairs) && Feeds(side, root.now, root.was, Flip(pairs))
  {
    RulesSilent(side);
    forall p | p in pairs
      ensures Feeds(side, Resolved(base, p.0), Resolved(current, p.1), pairs)
      ensures Feeds(side, Resolved(current, p.1), Resolved(base, p.0), Flip(pairs))
    {
      if Reachable(base, current, root, p) {
        var path :| path != [] && Path(base, current, root, path) && path[|path| - 1] == p;
        NoBreakAt(base, current, RuleOf(side), root, path);
      }
      NoBreakFeeds(side, Resolved(base, p.0), Resolved(current, p.1), pairs);
    }
    NoBreakAt(base, current, RuleOf(side), root, []);
    NoBreakFeeds(side, root.was, root.now, pairs);
  }

  /** One slot of a route, no break found in it: each release reads what the other writes. */
  lemma SlotCompatible(base: Schema, current: Schema, side: Side, was: Slot, now: Slot, v: Json)
    requires ScopeBelow(side, base, current, Node(Resolve(base, was), Resolve(current, now)))
    requires BodyBreaks(base, current, side, was, now) == {}
    ensures WritesShape(base, Resolve(base, was), v) ==> ReadsShape(side, current, Resolve(current, now), v)
    ensures WritesShape(current, Resolve(current, now), v) ==> ReadsShape(side, base, Resolve(base, was), v)
  {
    var root := Node(Resolve(base, was), Resolve(current, now));
    var pairs :| Surveyed(side, base, current, root, pairs);
    NoBreakSimulation(base, current, side, root, pairs);
    if WritesShape(base, root.was, v) {
      ShapeCarries(side, base, current, pairs, root.was, root.now, v);
    }
    if WritesShape(current, root.now, v) {
      ShapeCarries(side, current, base, Flip(pairs), root.now, root.was, v);
    }
  }

  /** The two cases the scope's one-form rule comes from: a type that didn't change, and one that
      names a single definition on each side and differs in nothing but its name. */
  lemma {:induction false} UnchangedMatches(ty: Ty, part: Ty)
    requires Refs(part) <= Refs(ty)
    ensures Matches(part, part, FieldPairs(ty, ty))
    decreases part
  {
    match part
    case ListOf(item) => UnchangedMatches(ty, item);
    case DictOf(item) => UnchangedMatches(ty, item);
    case AnyOf(branches) =>
      forall i | 0 <= i < |branches| ensures Matches(branches[i], branches[i], FieldPairs(ty, ty)) {
        assert Refs(branches[i]) <= Refs(part);
        UnchangedMatches(ty, branches[i]);
      }
    case Ref(n) => assert n in Refs(ty) * Refs(ty);
    case _ =>
  }
}
