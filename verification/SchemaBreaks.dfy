/** What the comparison's breaks mean, and what it lets pass: each break by what the two releases say
    of its field, and no break at all for a release that only adds. */
module SchemaBreaks {
  import opened SchemaShapes
  import opened SchemaCompare
  import opened SchemaMeaning
  import opened SchemaGate

  // ── what a break says ──────────────────────────────────────────────────────

  /** The writer may leave the field out, and the reader can't do without it. */
  ghost predicate Unmet(side: Side, writer: Shape, reader: Shape, f: Field) {
    Needs(side, reader, f) && f !in Required(writer)
  }

  /** What a break says of the two shapes it is a break of, each under the name of the one it's about. */
  ghost predicate Says(side: Side, was: Shape, now: Shape, b: Break) {
    match b
    case RequiredNow(_, _) => side.Request? && b.name == NameOf(now) && Unmet(side, was, now, b.field)
    case NotRequiredNow(_, _) =>
      side.Request? && b.name == NameOf(now) && Unmet(side, now, was, b.field) && b.field in Props(now)
    case RequestFieldGone(_, _) =>
      side.Request? && b.name == NameOf(was) && b.field in Props(was) && b.field !in Props(now)
    case MayBeAbsentNow(_, _) =>
      && side.Response? && b.name == NameOf(now) && Unmet(side, now, was, b.field) && b.field in Props(now)
      && !Lost(was, now)
    case RequiredNoDefault(_, _) =>
      && side.Response? && b.name == NameOf(now) && b.field in Required(now) && b.field !in Required(was)
      && !Defaulted(Props(now), b.field) && !Lost(was, now)
    case ResponseFieldGone(_, _) =>
      && side.Response? && b.name == NameOf(was) && b.field in Props(was) && b.field !in Props(now)
      && b.field in Required(was) && !Defaulted(Props(was), b.field) && !Lost(was, now)
    case ResponseGone(_) => side.Response? && b.name == NameOf(was) && Lost(was, now)
    case _ => false
  }

  /** There was a body, and there is none. */
  predicate Lost(was: Shape, now: Shape) {
    was.Shaped? && now.Absent?
  }

  /** A break is reported of two shapes exactly when what it says is so. */
  lemma ReportedIff(side: Side, was: Shape, now: Shape, b: Break)
    ensures b in LocalBreaks(side, was, now) <==> Says(side, was, now, b)
  {
  }

  // ── the messages behind it ─────────────────────────────────────────────────

  function WithoutField(v: Json, f: Field): Json
    requires v.Obj?
  {
    Obj(v.fields - {f})
  }

  /** Where the writer writes anything at all, it writes a message without the field, and the reader
      refuses it. */
  lemma UnmetMisreads(side: Side, from: Schema, writer: Shape, to: Schema, reader: Shape, f: Field, v: Json)
    requires Unmet(side, writer, reader, f) && (IsObject(writer) || writer.Absent?) && WritesShape(from, writer, v)
    ensures v.Obj? && WritesShape(from, writer, WithoutField(v, f))
    ensures !ReadsShape(side, to, reader, WithoutField(v, f))
  {
    if writer.Absent? {
      assert WithoutField(v, f).fields == map[];
    }
    assert f !in WithoutField(v, f).fields;
  }

  /** Of either peer's needs, the other leaves this one unmet. */
  ghost predicate UnmetEitherWay(side: Side, was: Shape, now: Shape, f: Field) {
    Unmet(side, was, now, f) || Unmet(side, now, was, f)
  }

  /** The breaks that stand for no unmet need: a request's field that is gone, though each release
      requires it or neither does; and in a response, a nullable field that is required now, or one that
      is gone, which an older reader takes for null, or one still required though it is no field. */
  ghost predicate ThoughMet(was: Shape, now: Shape, b: Break) {
    match b
    case RequestFieldGone(_, _) => b.field in Required(was) <==> b.field in Required(now)
    case RequiredNoDefault(_, _) => Nullable(Props(now), b.field)
    case ResponseFieldGone(_, _) => Nullable(Props(was), b.field) || b.field in Required(now)
    case _ => false
  }

  /** Every other break of a field names one that a peer may leave out and the other requires. */
  lemma BreakIsUnmetIff(side: Side, was: Shape, now: Shape, b: Break)
    requires b in LocalBreaks(side, was, now) && !b.ResponseGone?
    ensures !b.RouteGone? && !b.StatusGone? && !b.EventGone?
    ensures UnmetEitherWay(side, was, now, b.field) <==> !ThoughMet(was, now, b)
  {
    ReportedIff(side, was, now, b);
  }

  /** And a body that is gone is read as the empty one it's taken for just when it needs nothing. */
  lemma GoneIsReadIff(base: Schema, was: Shape)
    requires was.Shaped?
    ensures ReadsShape(Response, base, was, Obj(map[])) <==>
            IsObject(was) && forall f :: !Needs(Response, was, f)
  {
  }

  // ── a release that only adds ───────────────────────────────────────────────

  /** Nothing is taken away or changed, and what is added may be left out: on the response side, a
      field that is required but has a default may be added too. */
  ghost predicate AddsTo(side: Side, was: Shape, now: Shape) {
    && (now.Absent? ==> was.Absent?)
    && (forall f :: f in Props(was) ==> f in Props(now) && Props(now)[f] == Props(was)[f])
    && (forall f :: f in Required(was) ==> f in Required(now))
    && (forall f :: f in Required(now) && f !in Required(was) ==> side.Response? && Defaulted(Props(now), f))
  }

  lemma AddsNoBreak(side: Side, was: Shape, now: Shape)
    requires AddsTo(side, was, now)
    ensures LocalBreaks(side, was, now) == {}
  {
    forall b ensures b !in LocalBreaks(side, was, now) {
      ReportedIff(side, was, now, b);
    }
  }

  /** All that is reached from a body only adds. */
  ghost predicate BodyAdds(side: Side, base: Schema, current: Schema, was: Slot, now: Slot) {
    var root := Node(Resolve(base, was), Resolve(current, now));
    && AddsTo(side, root.was, root.now)
    && forall p :: Reachable(base, current, root, p) ==> AddsTo(side, Resolved(base, p.0), Resolved(current, p.1))
  }

  lemma BodyAddsPasses(side: Side, base: Schema, current: Schema, was: Slot, now: Slot)
    requires BodyAdds(side, base, current, was, now)
    ensures BodyBreaks(base, current, side, was, now) == {}
  {
    var root := Node(Resolve(base, was), Resolve(current, now));
    if b :| b in BodyBreaks(base, current, side, was, now) {
      var path := WalkOnlyReachable(base, current, RuleOf(side), root, {}, b);
      if path == [] {
        AddsNoBreak(side, root.was, root.now);
      } else {
        var p := path[|path| - 1];
        assert Reachable(base, current, root, p);
        AddsNoBreak(side, Resolved(base, p.0), Resolved(current, p.1));
      }
    }
  }

  ghost predicate RouteAdds(base: Schema, current: Schema, was: Route, now: Route) {
    && was.statuses <= now.statuses && was.events.Keys <= now.events.Keys
    && BodyAdds(Request, base, current, was.request, now.request)
    && BodyAdds(Request, base, current, was.query, now.query)
    && BodyAdds(Response, base, current, was.response, now.response)
    && forall e :: e in was.events ==> BodyAdds(Response, base, current, was.events[e], now.events[e])
  }

  lemma RouteAddsPasses(base: Schema, current: Schema, key: RouteKey)
    requires key in base.routes && key in current.routes
    requires RouteAdds(base, current, base.routes[key], current.routes[key])
    ensures RouteBreaks(base, current, key) == {}
  {
    var (was, now) := (base.routes[key], current.routes[key]);
    BodyAddsPasses(Request, base, current, was.request, now.request);
    BodyAddsPasses(Request, base, current, was.query, now.query);
    BodyAddsPasses(Response, base, current, was.response, now.response);
    forall e | e in was.events ensures BodyBreaks(base, current, Response, was.events[e], now.events[e]) == {} {
      BodyAddsPasses(Response, base, current, was.events[e], now.events[e]);
    }
    assert EventBreaks(base, current, was, now, was.events.Keys * now.events.Keys) == {};
  }

  /** A release that keeps every route and only adds, to its routes and to its bodies at any depth,
      passes: the comparison finds nothing. */
  lemma AdditionsPass(base: Schema, current: Schema)
    requires forall key :: key in base.routes ==>
                             key in current.routes && RouteAdds(base, current, base.routes[key], current.routes[key])
    ensures CompareBreaks(base, current) == {}
  {
    forall key | key in base.routes ensures RouteBreaks(base, current, key) == {} {
      RouteAddsPasses(base, current, key);
    }
    assert GoneRoutes(base, current) == {};
  }

  // ── definition by definition ───────────────────────────────────────────────

  /** Every definition the base has stays, with at most optional fields added; and it names only
      definitions it has. */
  ghost predicate DefsAdd(base: Schema, current: Schema) {
    && (forall n :: n in base.defs ==> n in current.defs
                                       && AddsTo(Request, Resolved(base, n), Resolved(current, n)))
    && (forall n, f :: n in base.defs && f in Props(Resolved(base, n)) ==>
                         Refs(Props(Resolved(base, n))[f].ty) <= base.defs.Keys)
  }

  ghost predicate SameRoutes(base: Schema, current: Schema) {
    forall key :: key in base.routes ==> key in current.routes && SlotsKept(base, base.routes[key], current.routes[key])
  }

  /** The route has the slots it had, each a definition of the base's or no object at all. */
  ghost predicate SlotsKept(base: Schema, was: Route, now: Route) {
    && was.statuses <= now.statuses && was.events.Keys <= now.events.Keys
    && now.request == was.request && now.query == was.query && now.response == was.response
    && (forall e :: e in was.events ==> now.events[e] == was.events[e])
    && ByName(base, was.request) && ByName(base, was.query) && ByName(base, was.response)
    && forall e :: e in was.events ==> ByName(base, was.events[e])
  }

  predicate ByName(base: Schema, slot: Slot) {
    slot.NoBody? || slot.BodyOther? || (slot.BodyRef? && slot.name in base.defs)
  }

  lemma SameTypePairs(ty: Ty, p: Pair)
    requires p in FieldPairs(ty, ty)
    ensures p.0 == p.1 && p.0 in Refs(ty)
  {
    assert Refs(ty) * Refs(ty) == Refs(ty);
  }

  lemma ChildIsSame(base: Schema, current: Schema, n: Name, p: Pair)
    requires DefsAdd(base, current) && n in base.defs && p in Children(Resolved(base, n), Resolved(current, n))
    ensures p.0 == p.1 && p.0 in base.defs
  {
    var (was, now) := (Resolved(base, n), Resolved(current, n));
    var f :| f in Props(was).Keys * Props(now).Keys && p in FieldPairs(Props(was)[f].ty, Props(now)[f].ty);
    assert Props(now)[f] == Props(was)[f];
    SameTypePairs(Props(was)[f].ty, p);
  }

  lemma {:induction false} PathIsSame(base: Schema, current: Schema, n: Name, path: seq<Pair>)
    requires DefsAdd(base, current) && n in base.defs && path != []
    requires Path(base, current, Node(Resolved(base, n), Resolved(current, n)), path)
    ensures var p := path[|path| - 1]; p.0 == p.1 && p.0 in base.defs
    decreases |path|
  {
    ChildIsSame(base, current, n, path[0]);
    if |path| > 1 {
      PathIsSame(base, current, path[0].0, path[1..]);
    }
  }

  lemma NamedAdds(side: Side, base: Schema, current: Schema, slot: Slot)
    requires DefsAdd(base, current) && ByName(base, slot)
    ensures BodyAdds(side, base, current, slot, slot)
  {
    var root := Node(Resolve(base, slot), Resolve(current, slot));
    if slot.BodyRef? {
      forall p | Reachable(base, current, root, p)
        ensures AddsTo(side, Resolved(base, p.0), Resolved(current, p.1))
      {
        var path :| path != [] && Path(base, current, root, path) && path[|path| - 1] == p;
        PathIsSame(base, current, slot.name, path);
      }
    } else {
      assert Children(root.was, root.now) == {};
    }
  }

  /** So adding routes, statuses, events, definitions, and optional fields to definitions, passes. */
  lemma OptionalFieldsPass(base: Schema, current: Schema)
    requires DefsAdd(base, current) && SameRoutes(base, current)
    ensures CompareBreaks(base, current) == {}
  {
    forall key | key in base.routes ensures RouteAdds(base, current, base.routes[key], current.routes[key]) {
      var was := base.routes[key];
      assert SlotsKept(base, was, current.routes[key]);
      NamedAdds(Request, base, current, was.request);
      NamedAdds(Request, base, current, was.query);
      NamedAdds(Response, base, current, was.response);
      forall e | e in was.events ensures BodyAdds(Response, base, current, was.events[e], was.events[e]) {
        NamedAdds(Response, base, current, was.events[e]);
      }
    }
    AdditionsPass(base, current);
  }

  // ── what else is reported ──────────────────────────────────────────────────

  lemma BodyBreakHasShape(base: Schema, current: Schema, side: Side, was: Slot, now: Slot, b: Break)
    requires b in BodyBreaks(base, current, side, was, now)
    ensures !b.RouteGone? && !b.StatusGone? && !b.EventGone?
  {
    var root := Node(Resolve(base, was), Resolve(current, now));
    var path := WalkOnlyReachable(base, current, RuleOf(side), root, {}, b);
    ReportedIff(side, End(base, current, root, path).was, End(base, current, root, path).now, b);
  }

  lemma ShapeBreakHasShape(base: Schema, current: Schema, key: RouteKey, b: Break)
    requires key in base.routes && key in current.routes && b in ShapeBreaks(base, current, key)
    ensures !b.RouteGone? && !b.StatusGone? && !b.EventGone?
  {
    var (was, now) := (base.routes[key], current.routes[key]);
    if b in BodyBreaks(base, current, Request, was.request, now.request) {
      BodyBreakHasShape(base, current, Request, was.request, now.request, b);
    } else if b in BodyBreaks(base, current, Request, was.query, now.query) {
      BodyBreakHasShape(base, current, Request, was.query, now.query, b);
    } else if b in BodyBreaks(base, current, Response, was.response, now.response) {
      BodyBreakHasShape(base, current, Response, was.response, now.response, b);
    } else {
      var e :| e in was.events.Keys * now.events.Keys
               && b in BodyBreaks(base, current, Response, was.events[e], now.events[e]);
      BodyBreakHasShape(base, current, Response, was.events[e], now.events[e], b);
    }
  }

  /** Besides its shapes' breaks, a release is told of just the routes it lost, and of the statuses and
      events that a route it kept lost. */
  lemma LostIff(base: Schema, current: Schema, b: Break)
    requires b.RouteGone? || b.StatusGone? || b.EventGone?
    ensures b in CompareBreaks(base, current) <==>
            match b
            case RouteGone(key) => key in base.routes && key !in current.routes
            case StatusGone(key, status) =>
              && key in base.routes && key in current.routes
              && status in base.routes[key].statuses && status !in current.routes[key].statuses
            case EventGone(key, event) =>
              && key in base.routes && key in current.routes
              && event in base.routes[key].events && event !in current.routes[key].events
  {
    if !b.RouteGone? && b.key in base.routes && b.key in current.routes {
      if b in RouteBreaks(base, current, b.key) {
        RouteBreakFound(base, current, b.key, b);
      }
    }
    if b in RoutesBreaks(base, current, base.routes.Keys * current.routes.Keys) {
      var key :| key in base.routes.Keys * current.routes.Keys && b in RouteBreaks(base, current, key);
      if b in ShapeBreaks(base, current, key) {
        ShapeBreakHasShape(base, current, key, b);
      }
    }
  }
}
