/** The whole comparison: `compare` of tools/check-schema-compat.py, and what an empty answer
    promises on every route both releases have. */
module SchemaGate {
  import opened Prelude
  import opened SchemaShapes
  import opened SchemaCompare
  import opened SchemaMeaning

  // ── compare ────────────────────────────────────────────────────────────────

  ghost function EventBreaks(base: Schema, current: Schema, was: Route, now: Route, names: set<string>): set<Break>
    requires names <= was.events.Keys * now.events.Keys
  {
    set e, b | e in names && b in BodyBreaks(base, current, Response, was.events[e], now.events[e]) :: b
  }

  function EventLabel(where: Label, event: string): Label {
    where + " " + event + " event"
  }

  ghost function EventLabels(base: Schema, current: Schema, was: Route, now: Route, where: Label,
                             names: set<string>): set<(Break, Label)>
    requires names <= was.events.Keys * now.events.Keys
  {
    set e, b | e in names && b in BodyBreaks(base, current, Response, was.events[e], now.events[e]) ::
      (b, EventLabel(where, e))
  }

  function RouteLabel(key: RouteKey): Label {
    key.0 + " " + key.1
  }

  /** The breaks of one route's shapes, each with the route it is found on, or the route's event. */
  ghost function RouteLabels(base: Schema, current: Schema, key: RouteKey): set<(Break, Label)>
    requires key in base.routes && key in current.routes
  {
    var (was, now, where) := (base.routes[key], current.routes[key], RouteLabel(key));
    Labelled(BodyBreaks(base, current, Request, was.request, now.request), where)
    + Labelled(BodyBreaks(base, current, Request, was.query, now.query), where)
    + Labelled(BodyBreaks(base, current, Response, was.response, now.response), where)
    + EventLabels(base, current, was, now, where, was.events.Keys * now.events.Keys)
  }

  ghost function RoutesLabels(base: Schema, current: Schema, keys: set<RouteKey>): set<(Break, Label)>
    requires keys <= base.routes.Keys * current.routes.Keys
  {
    set key, p | key in keys && p in RouteLabels(base, current, key) :: p
  }

  ghost function RouteBreaks(base: Schema, current: Schema, key: RouteKey): set<Break>
    requires key in base.routes && key in current.routes
  {
    var (was, now) := (base.routes[key], current.routes[key]);
    (set s | s in was.statuses - now.statuses :: StatusGone(key, s))
    + (set e | e in was.events.Keys - now.events.Keys :: EventGone(key, e))
    + ShapeBreaks(base, current, key)
  }

  ghost function ShapeBreaks(base: Schema, current: Schema, key: RouteKey): set<Break>
    requires key in base.routes && key in current.routes
  {
    var (was, now) := (base.routes[key], current.routes[key]);
    BodyBreaks(base, current, Request, was.request, now.request)
    + BodyBreaks(base, current, Request, was.query, now.query)
    + BodyBreaks(base, current, Response, was.response, now.response)
    + EventBreaks(base, current, was, now, was.events.Keys * now.events.Keys)
  }

  ghost function RoutesBreaks(base: Schema, current: Schema, keys: set<RouteKey>): set<Break>
    requires keys <= base.routes.Keys * current.routes.Keys
  {
    set key, b | key in keys && b in RouteBreaks(base, current, key) :: b
  }

  function GoneRoutes(base: Schema, current: Schema): set<Break> {
    set key | key in base.routes.Keys - current.routes.Keys :: RouteGone(key)
  }

  ghost function CompareBreaks(base: Schema, current: Schema): set<Break> {
    GoneRoutes(base, current) + RoutesBreaks(base, current, base.routes.Keys * current.routes.Keys)
  }

  method AddEach(comparison: Comparison, breaks: set<Break>)
    modifies comparison
    ensures comparison.found.Keys == old(comparison.found.Keys) + breaks
    ensures Listing(comparison.found) == old(Listing(comparison.found))
  {
    var todo := breaks;
    while todo != {}
      invariant todo <= breaks
      invariant comparison.found.Keys == old(comparison.found.Keys) + (breaks - todo)
      invariant Listing(comparison.found) == old(Listing(comparison.found))
      decreases todo
    {
      var b :| b in todo;
      comparison.Add(b, None);
      todo := todo - {b};
    }
  }

  /** One slot of a route: its breaks are found, each listed under `where`. */
  method CompareSlot(comparison: Comparison, side: Side, was: Slot, now: Slot, where: Label)
    modifies comparison
    ensures var breaks := BodyBreaks(comparison.base, comparison.current, side, was, now);
            && comparison.found.Keys == old(comparison.found.Keys) + breaks
            && Listing(comparison.found) == old(Listing(comparison.found)) + Labelled(breaks, where)
  {
    AddAllLists(comparison.found, BodyBreaks(comparison.base, comparison.current, side, was, now), where);
    comparison.Body(side, was, now, where);
  }

  lemma OneMoreEvent(base: Schema, current: Schema, was: Route, now: Route, where: Label, done: set<string>, e: string)
    requires done <= was.events.Keys * now.events.Keys && e in was.events.Keys * now.events.Keys
    ensures var breaks := BodyBreaks(base, current, Response, was.events[e], now.events[e]);
      && EventBreaks(base, current, was, now, done + {e}) == EventBreaks(base, current, was, now, done) + breaks
      && EventLabels(base, current, was, now, where, done + {e})
         == EventLabels(base, current, was, now, where, done) + Labelled(breaks, EventLabel(where, e))
  {
  }

  method CompareEvents(comparison: Comparison, was: Route, now: Route, where: Label)
    modifies comparison
    ensures var (base, current, names) := (comparison.base, comparison.current, was.events.Keys * now.events.Keys);
            && comparison.found.Keys == old(comparison.found.Keys) + EventBreaks(base, current, was, now, names)
            && Listing(comparison.found) ==
               old(Listing(comparison.found)) + EventLabels(base, current, was, now, where, names)
  {
    var all := was.events.Keys * now.events.Keys;
    var todo := all;
    ghost var (base, current) := (comparison.base, comparison.current);
    while todo != {}
      invariant todo <= all
      invariant comparison.found.Keys ==
                old(comparison.found.Keys) + EventBreaks(base, current, was, now, all - todo)
      invariant Listing(comparison.found) ==
                old(Listing(comparison.found)) + EventLabels(base, current, was, now, where, all - todo)
      decreases todo
    {
      var e :| e in todo;
      CompareSlot(comparison, Response, was.events[e], now.events[e], EventLabel(where, e));
      OneMoreEvent(base, current, was, now, where, all - todo, e);
      assert all - (todo - {e}) == all - todo + {e};
      todo := todo - {e};
    }
    assert all - todo == all;
  }

  /** The slots of one route: its request, query and response, and each event it kept. */
  method CompareShapes(comparison: Comparison, key: RouteKey)
    requires key in comparison.base.routes && key in comparison.current.routes
    modifies comparison
    ensures comparison.found.Keys ==
            old(comparison.found.Keys) + ShapeBreaks(comparison.base, comparison.current, key)
    ensures Listing(comparison.found) ==
            old(Listing(comparison.found)) + RouteLabels(comparison.base, comparison.current, key)
  {
    var (was, now) := (comparison.base.routes[key], comparison.current.routes[key]);
    var where := RouteLabel(key);
    CompareSlot(comparison, Request, was.request, now.request, where);
    CompareSlot(comparison, Request, was.query, now.query, where);
    CompareSlot(comparison, Response, was.response, now.response, where);
    CompareEvents(comparison, was, now, where);
  }

  method CompareRoute(comparison: Comparison, key: RouteKey)
    requires key in comparison.base.routes && key in comparison.current.routes
    modifies comparison
    ensures comparison.found.Keys ==
            old(comparison.found.Keys) + RouteBreaks(comparison.base, comparison.current, key)
    ensures Listing(comparison.found) ==
            old(Listing(comparison.found)) + RouteLabels(comparison.base, comparison.current, key)
  {
    var (was, now) := (comparison.base.routes[key], comparison.current.routes[key]);
    AddEach(comparison, set s | s in was.statuses - now.statuses :: StatusGone(key, s));
    AddEach(comparison, set e | e in was.events.Keys - now.events.Keys :: EventGone(key, e));
    CompareShapes(comparison, key);
  }

  lemma OneMoreRoute(base: Schema, current: Schema, done: set<RouteKey>, key: RouteKey)
    requires done <= base.routes.Keys * current.routes.Keys && key in base.routes.Keys * current.routes.Keys
    ensures RoutesBreaks(base, current, done + {key}) ==
            RoutesBreaks(base, current, done) + RouteBreaks(base, current, key)
  {
    var more := RoutesBreaks(base, current, done + {key});
    forall b | b in more ensures b in RoutesBreaks(base, current, done) + RouteBreaks(base, current, key) {
      var k :| k in done + {key} && b in RouteBreaks(base, current, k);
    }
    forall b | b in RoutesBreaks(base, current, done) ensures b in more {
      var k :| k in done && b in RouteBreaks(base, current, k);
      assert k in done + {key};
    }
    assert key in done + {key};
  }

  lemma OneMoreLabel(base: Schema, current: Schema, done: set<RouteKey>, key: RouteKey)
    requires done <= base.routes.Keys * current.routes.Keys && key in base.routes.Keys * current.routes.Keys
    ensures RoutesLabels(base, current, done + {key}) ==
            RoutesLabels(base, current, done) + RouteLabels(base, current, key)
  {
    var more := RoutesLabels(base, current, done + {key});
    forall p | p in more ensures p in RoutesLabels(base, current, done) + RouteLabels(base, current, key) {
      var k :| k in done + {key} && p in RouteLabels(base, current, k);
    }
    forall p | p in RoutesLabels(base, current, done) ensures p in more {
      var k :| k in done && p in RouteLabels(base, current, k);
      assert k in done + {key};
    }
    assert key in done + {key};
  }

  /** What has been found once the routes gone and the routes of `done` have been looked at. */
  ghost predicate FoundSoFar(base: Schema, current: Schema, found: map<Break, seq<Label>>, done: set<RouteKey>)
    requires done <= base.routes.Keys * current.routes.Keys
  {
    && found.Keys == GoneRoutes(base, current) + RoutesBreaks(base, current, done)
    && Listing(found) == RoutesLabels(base, current, done)
  }

  lemma FoundAtFirst(base: Schema, current: Schema, found: map<Break, seq<Label>>)
    requires found.Keys == GoneRoutes(base, current) && Listing(found) == {}
    ensures FoundSoFar(base, current, found, {})
  {
    assert RoutesBreaks(base, current, {}) == {} && RoutesLabels(base, current, {}) == {};
  }

  lemma FoundOneMore(base: Schema, current: Schema, was: map<Break, seq<Label>>, found: map<Break, seq<Label>>,
                     done: set<RouteKey>, key: RouteKey)
    requires done <= base.routes.Keys * current.routes.Keys && key in base.routes.Keys * current.routes.Keys
    requires FoundSoFar(base, current, was, done)
    requires found.Keys == was.Keys + RouteBreaks(base, current, key)
    requires Listing(found) == Listing(was) + RouteLabels(base, current, key)
    ensures FoundSoFar(base, current, found, done + {key})
  {
    OneMoreRoute(base, current, done, key);
    OneMoreLabel(base, current, done, key);
  }

  /** `compare`: every break, and each break of a shape under just the routes it is found on. */
  method Compare(base: Schema, current: Schema) returns (found: map<Break, seq<Label>>)
    ensures found.Keys == CompareBreaks(base, current)
    ensures Listing(found) == RoutesLabels(base, current, base.routes.Keys * current.routes.Keys)
  {
    var comparison := new Comparison(base, current);
    AddEach(comparison, GoneRoutes(base, current));
    FoundAtFirst(base, current, comparison.found);
    var all := base.routes.Keys * current.routes.Keys;
    var todo := all;
    assert all - todo == {};
    while todo != {}
      invariant todo <= all
      invariant FoundSoFar(base, current, comparison.found, all - todo)
      decreases todo
    {
      var key :| key in todo;
      ghost var was := comparison.found;
      CompareRoute(comparison, key);
      FoundOneMore(base, current, was, comparison.found, all - todo, key);
      assert all - (todo - {key}) == all - todo + {key};
      todo := todo - {key};
    }
    assert all - todo == all;
    found := comparison.found;
  }

  // ── what no break means ────────────────────────────────────────────────────

  ghost predicate SlotInScope(side: Side, base: Schema, current: Schema, was: Slot, now: Slot) {
    ScopeBelow(side, base, current, Node(Resolve(base, was), Resolve(current, now)))
  }

  ghost predicate RouteInScope(base: Schema, current: Schema, was: Route, now: Route) {
    && SlotInScope(Request, base, current, was.request, now.request)
    && SlotInScope(Request, base, current, was.query, now.query)
    && SlotInScope(Response, base, current, was.response, now.response)
    && forall e :: e in was.events && e in now.events ==>
                     SlotInScope(Response, base, current, was.events[e], now.events[e])
  }

  /** Each release reads, in this slot, whatever the other writes there. */
  ghost predicate ReadBothWays(side: Side, base: Schema, current: Schema, was: Slot, now: Slot) {
    forall v ::
      && (WritesShape(base, Resolve(base, was), v) ==> ReadsShape(side, current, Resolve(current, now), v))
      && (WritesShape(current, Resolve(current, now), v) ==> ReadsShape(side, base, Resolve(base, was), v))
  }

  lemma SlotReadBothWays(side: Side, base: Schema, current: Schema, was: Slot, now: Slot)
    requires SlotInScope(side, base, current, was, now) && BodyBreaks(base, current, side, was, now) == {}
    ensures ReadBothWays(side, base, current, was, now)
  {
    forall v
      ensures WritesShape(base, Resolve(base, was), v) ==> ReadsShape(side, current, Resolve(current, now), v)
      ensures WritesShape(current, Resolve(current, now), v) ==> ReadsShape(side, base, Resolve(base, was), v)
    {
      SlotCompatible(base, current, side, was, now, v);
    }
  }

  lemma LostRouteBreaks(base: Schema, current: Schema, key: RouteKey)
    requires key in base.routes && key !in current.routes
    ensures RouteGone(key) in CompareBreaks(base, current)
  {
    assert key in base.routes.Keys - current.routes.Keys;
  }

  lemma RouteBreakFound(base: Schema, current: Schema, key: RouteKey, b: Break)
    requires key in base.routes && key in current.routes && b in RouteBreaks(base, current, key)
    ensures b in CompareBreaks(base, current)
  {
    var both := base.routes.Keys * current.routes.Keys;
    assert key in both;
    assert b in RoutesBreaks(base, current, both);
  }

  lemma LostStatusBreaks(base: Schema, current: Schema, key: RouteKey, status: (int, string))
    requires key in base.routes && key in current.routes
    requires status in base.routes[key].statuses && status !in current.routes[key].statuses
    ensures StatusGone(key, status) in RouteBreaks(base, current, key)
  {
    assert status in base.routes[key].statuses - current.routes[key].statuses;
  }

  lemma LostEventBreaks(base: Schema, current: Schema, key: RouteKey, e: string)
    requires key in base.routes && key in current.routes
    requires e in base.routes[key].events && e !in current.routes[key].events
    ensures EventGone(key, e) in RouteBreaks(base, current, key)
  {
    assert e in base.routes[key].events.Keys - current.routes[key].events.Keys;
  }

  lemma EventBodyBreaks(base: Schema, current: Schema, key: RouteKey, e: string, b: Break)
    requires key in base.routes && key in current.routes
    requires e in base.routes[key].events && e in current.routes[key].events
    requires b in BodyBreaks(base, current, Response, base.routes[key].events[e], current.routes[key].events[e])
    ensures b in RouteBreaks(base, current, key)
  {
    var (was, now) := (base.routes[key], current.routes[key]);
    var both := was.events.Keys * now.events.Keys;
    assert e in both;
    assert b in EventBreaks(base, current, was, now, both);
  }

  /** Nothing found means nothing lost: every base route is still there with its statuses and
      events; on each, an old client's requests are read by the new daemon and a new client's by
      an old one, and each side's answers and events are read by the other, at every depth. */
  lemma NoBreakMeansCompatible(base: Schema, current: Schema, key: RouteKey)
    requires CompareBreaks(base, current) == {} && key in base.routes
    requires key in current.routes ==> RouteInScope(base, current, base.routes[key], current.routes[key])
    ensures key in current.routes
    ensures var (was, now) := (base.routes[key], current.routes[key]);
            && was.statuses <= now.statuses && was.events.Keys <= now.events.Keys
            && ReadBothWays(Request, base, current, was.request, now.request)
            && ReadBothWays(Request, base, current, was.query, now.query)
            && ReadBothWays(Response, base, current, was.response, now.response)
            && forall e :: e in was.events ==> ReadBothWays(Response, base, current, was.events[e], now.events[e])
  {
    if key !in current.routes {
      LostRouteBreaks(base, current, key);
    } else {
      NoRouteBreak(base, current, key);
      RouteCompatible(base, current, key);
    }
  }

  lemma NoRouteBreak(base: Schema, current: Schema, key: RouteKey)
    requires CompareBreaks(base, current) == {} && key in base.routes && key in current.routes
    ensures RouteBreaks(base, current, key) == {}
  {
    if b :| b in RouteBreaks(base, current, key) {
      RouteBreakFound(base, current, key, b);
    }
  }

  lemma RouteCompatible(base: Schema, current: Schema, key: RouteKey)
    requires key in base.routes && key in current.routes && RouteBreaks(base, current, key) == {}
    requires RouteInScope(base, current, base.routes[key], current.routes[key])
    ensures var (was, now) := (base.routes[key], current.routes[key]);
            && was.statuses <= now.statuses && was.events.Keys <= now.events.Keys
            && ReadBothWays(Request, base, current, was.request, now.request)
            && ReadBothWays(Request, base, current, was.query, now.query)
            && ReadBothWays(Response, base, current, was.response, now.response)
            && forall e :: e in was.events ==> ReadBothWays(Response, base, current, was.events[e], now.events[e])
  {
    var (was, now) := (base.routes[key], current.routes[key]);
    forall s | s in was.statuses ensures s in now.statuses {
      if s !in now.statuses {
        LostStatusBreaks(base, current, key, s);
      }
    }
    forall e | e in was.events ensures e in now.events {
      if e !in now.events {
        LostEventBreaks(base, current, key, e);
      }
    }
    SlotReadBothWays(Request, base, current, was.request, now.request);
    SlotReadBothWays(Request, base, current, was.query, now.query);
    SlotReadBothWays(Response, base, current, was.response, now.response);
    forall e | e in was.events ensures ReadBothWays(Response, base, current, was.events[e], now.events[e]) {
      var found := BodyBreaks(base, current, Response, was.events[e], now.events[e]);
      if b :| b in found {
        EventBodyBreaks(base, current, key, e, b);
      }
      SlotReadBothWays(Response, base, current, was.events[e], now.events[e]);
    }
  }
}
