/**
 The router registry of ScheduleRoutersWithShapes: a shape-id keyed cache of
 routers and a two-level line -> route -> router index, filled by `Init`.

 A router is an opaque handle: the index of its construction in `built`,
 whose entry records what the router was constructed from.
 */
module RouterRegistry {
  import opened Wrappers
  import opened Transit

  type RouterHandle = nat

  /** What a shape router is constructed from: the network modes (null when unassigned) and the shape. */
  datatype RouterSpec = RouterSpec(modes: Option<set<Mode>>, shape: Shape)

  /**
   The registry's state: the line -> route -> router index, the shape-id
   cache, and every router constructed so far, in construction order.
   */
  datatype Registry = Registry(
    byRoute: map<LineId, map<RouteId, RouterHandle>>,
    byShape: map<ShapeId, RouterHandle>,
    built: seq<RouterSpec>)

  /** The freshly constructed registry, before `Init`: both maps empty, no router constructed. */
  function Empty(): (r: Registry)
    ensures r.built == [] && r.byShape == map[]
    ensures forall l, q :: !Registered(r, l, q)
  {
    Registry(map[], map[], [])
  }

  predicate Registered(reg: Registry, line: LineId, route: RouteId) {
    line in reg.byRoute && route in reg.byRoute[line]
  }

  /** The router registered for a registered (line, route). */
  function RouterAt(reg: Registry, line: LineId, route: RouteId): RouterHandle
    requires Registered(reg, line, route)
  {
    reg.byRoute[line][route]
  }

  /**
   `getRouter(line, route)`: the router registered for (line, route), absent
   (Java null) when the line is known but the route is not. An unknown line
   dereferences null in the source, hence the precondition.
   */
  function GetRouter(reg: Registry, line: LineId, route: RouteId): (r: Option<RouterHandle>)
    requires line in reg.byRoute
    ensures r.Some? <==> Registered(reg, line, route)
    ensures r.Some? ==> r.value == RouterAt(reg, line, route)
  {
    if route in reg.byRoute[line] then Some(reg.byRoute[line][route]) else None
  }

  /** The mode-keyed accessor `getRouter(scheduleMode)`: it never finds a router. */
  function GetRouterForMode(reg: Registry, scheduleMode: Mode): (r: Option<RouterHandle>)
    ensures r == None
  {
    None
  }

  /**
   Registers (line, route) -> h in a two-level index, creating the line's
   inner map when it is missing; every other entry is left as it was.
   */
  function Put(index: map<LineId, map<RouteId, RouterHandle>>, line: LineId, route: RouteId, h: RouterHandle)
    : (r: map<LineId, map<RouteId, RouterHandle>>)
    ensures line in r && route in r[line] && r[line][route] == h
    ensures r.Keys == index.Keys + {line}
    ensures line in index ==> r[line].Keys == index[line].Keys + {route}
    ensures line !in index ==> r[line].Keys == {route}
    ensures forall l :: l in index && l != line ==> r[l] == index[l]
    ensures forall q :: line in index && q in index[line] && q != route ==> r[line][q] == index[line][q]
  {
    var inner := if line in index then index[line] else map[];
    index[line := inner[route := h]]
  }

  /**
   One iteration of `init`'s inner loop for the visit `v`: look the route's
   shape id up in the cache, construct and cache a router on a miss, and
   register (line, route) with the cached router in every case.
   */
  function Step(reg: Registry, config: Config, shapes: map<RouteKey, Shape>, v: Visit): (r: Registry)
    requires KeyOf(v) in shapes
    ensures forall s :: s in reg.byShape ==> s in r.byShape && r.byShape[s] == reg.byShape[s]
    ensures shapes[KeyOf(v)].id in r.byShape
    ensures r.byShape.Keys == reg.byShape.Keys + {shapes[KeyOf(v)].id}
    ensures shapes[KeyOf(v)].id in reg.byShape ==> r.built == reg.built
    ensures shapes[KeyOf(v)].id !in reg.byShape ==>
      r.built == reg.built + [RouterSpec(ModesFor(config, v.route.transportMode), shapes[KeyOf(v)])]
      && r.byShape[shapes[KeyOf(v)].id] == |reg.built|
    ensures Registered(r, v.line, v.route.id)
    ensures RouterAt(r, v.line, v.route.id) == r.byShape[shapes[KeyOf(v)].id]
    ensures forall l, q :: Registered(reg, l, q) ==> Registered(r, l, q)
    ensures forall l, q :: Registered(r, l, q) ==> Registered(reg, l, q) || RouteKey(l, q) == KeyOf(v)
    ensures forall l, q :: Registered(reg, l, q) && RouteKey(l, q) != KeyOf(v) ==>
      RouterAt(r, l, q) == RouterAt(reg, l, q)
  {
    var shape := shapes[KeyOf(v)];
    var byShape := if shape.id in reg.byShape then reg.byShape else reg.byShape[shape.id := |reg.built|];
    var built := if shape.id in reg.byShape then reg.built
                 else reg.built + [RouterSpec(ModesFor(config, v.route.transportMode), shape)];
    Registry(Put(reg.byRoute, v.line, v.route.id, byShape[shape.id]), byShape, built)
  }

  /** `Step` applied to each visit in order, starting from `reg`. */
  function Run(reg: Registry, config: Config, shapes: map<RouteKey, Shape>, visits: seq<Visit>): Registry
    requires forall v :: v in visits ==> KeyOf(v) in shapes
  {
    if visits == [] then reg
    else
      var last := visits[|visits| - 1];
      assert last in visits;
      Step(Run(reg, config, shapes, visits[..|visits| - 1]), config, shapes, last)
  }

  // ---------------------------------------------------------------------
  // The registry's invariant after visiting a prefix of the schedule
  // ---------------------------------------------------------------------

  /** Each cached handle names a constructed router for that very shape id, and nothing else was constructed. */
  ghost predicate CacheWellFormed(reg: Registry) {
    && |reg.built| == |reg.byShape|
    && forall s :: s in reg.byShape ==>
         reg.byShape[s] < |reg.built| && reg.built[reg.byShape[s]].shape.id == s
  }

  /** Every registered (line, route) holds the router cached for its shape id. */
  ghost predicate IndexCoherent(reg: Registry, shapes: map<RouteKey, Shape>) {
    forall l, q :: Registered(reg, l, q) ==>
      && RouteKey(l, q) in shapes
      && shapes[RouteKey(l, q)].id in reg.byShape
      && RouterAt(reg, l, q) == reg.byShape[shapes[RouteKey(l, q)].id]
  }

  /** The visit at index i is the first one with its shape id. */
  ghost predicate FirstWithShape(shapes: map<RouteKey, Shape>, visits: seq<Visit>, i: nat)
    requires i < |visits|
    requires forall v :: v in visits ==> KeyOf(v) in shapes
  {
    forall j :: 0 <= j < i ==> shapes[KeyOf(visits[j])].id != shapes[KeyOf(visits[i])].id
  }

  /** The router of each shape id was constructed from the first visit with that shape id. */
  ghost predicate BuiltFromFirst(reg: Registry, config: Config, shapes: map<RouteKey, Shape>, visits: seq<Visit>)
    requires forall v :: v in visits ==> KeyOf(v) in shapes
    requires CacheWellFormed(reg)
  {
    forall i :: 0 <= i < |visits| && FirstWithShape(shapes, visits, i) ==>
      var s := shapes[KeyOf(visits[i])].id;
      && s in reg.byShape
      && reg.built[reg.byShape[s]] == RouterSpec(ModesFor(config, visits[i].route.transportMode), shapes[KeyOf(visits[i])])
  }

  /** What holds of the registry after `init` has visited `visits`. */
  ghost predicate Invariant(reg: Registry, config: Config, shapes: map<RouteKey, Shape>, visits: seq<Visit>) {
    && (forall v :: v in visits ==> KeyOf(v) in shapes)
    && CacheWellFormed(reg)
    && reg.byShape.Keys == ShapeIds(shapes, visits)
    && IndexCoherent(reg, shapes)
    && (forall v :: v in visits ==> Registered(reg, v.line, v.route.id))
    && (forall l, q :: Registered(reg, l, q) ==> RouteKey(l, q) in VisitedKeys(visits))
    && BuiltFromFirst(reg, config, shapes, visits)
  }

  lemma EmptyInvariant(config: Config, shapes: map<RouteKey, Shape>)
    ensures Invariant(Empty(), config, shapes, [])
  {
  }

  lemma ShapeIdsSnoc(shapes: map<RouteKey, Shape>, visits: seq<Visit>, v: Visit)
    requires KeyOf(v) in shapes
    ensures ShapeIds(shapes, visits + [v]) == ShapeIds(shapes, visits) + {shapes[KeyOf(v)].id}
  {
    var w := visits + [v];
    forall s | s in ShapeIds(shapes, w)
      ensures s in ShapeIds(shapes, visits) + {shapes[KeyOf(v)].id}
    {
      var u :| u in w && KeyOf(u) in shapes && shapes[KeyOf(u)].id == s;
      if u != v {
        assert u in visits;
      }
    }
    assert v in w;
    forall s | s in ShapeIds(shapes, visits)
      ensures s in ShapeIds(shapes, w)
    {
      var u :| u in visits && KeyOf(u) in shapes && shapes[KeyOf(u)].id == s;
      assert u in w;
    }
  }

  /** Caching a fresh router under a missing shape id keeps the cache well formed. */
  lemma CacheMissKeepsWellFormed(reg: Registry, r: Registry, s: ShapeId, spec: RouterSpec)
    requires CacheWellFormed(reg)
    requires s !in reg.byShape && spec.shape.id == s
    requires r.byShape == reg.byShape[s := |reg.built|] && r.built == reg.built + [spec]
    ensures CacheWellFormed(r)
  {
    assert |r.byShape| == |reg.byShape| + 1;
    forall t | t in r.byShape
      ensures r.byShape[t] < |r.built| && r.built[r.byShape[t]].shape.id == t
    {
      if t != s {
        assert r.built[reg.byShape[t]] == reg.built[reg.byShape[t]];
      }
    }
  }

  lemma StepKeepsCache(reg: Registry, config: Config, shapes: map<RouteKey, Shape>, visits: seq<Visit>, v: Visit)
    requires KeyOf(v) in shapes
    requires CacheWellFormed(reg)
    requires reg.byShape.Keys == ShapeIds(shapes, visits)
    ensures CacheWellFormed(Step(reg, config, shapes, v))
    ensures Step(reg, config, shapes, v).byShape.Keys == ShapeIds(shapes, visits + [v])
  {
    var r := Step(reg, config, shapes, v);
    var s := shapes[KeyOf(v)].id;
    ShapeIdsSnoc(shapes, visits, v);
    if s !in reg.byShape {
      CacheMissKeepsWellFormed(reg, r, s, RouterSpec(ModesFor(config, v.route.transportMode), shapes[KeyOf(v)]));
    } else {
      assert r.byShape == reg.byShape && r.built == reg.built;
    }
  }

  lemma StepKeepsIndex(reg: Registry, config: Config, shapes: map<RouteKey, Shape>, visits: seq<Visit>, v: Visit)
    requires KeyOf(v) in shapes
    requires IndexCoherent(reg, shapes)
    requires forall u :: u in visits ==> Registered(reg, u.line, u.route.id)
    requires forall l, q :: Registered(reg, l, q) ==> RouteKey(l, q) in VisitedKeys(visits)
    ensures IndexCoherent(Step(reg, config, shapes, v), shapes)
    ensures forall u :: u in visits + [v] ==> Registered(Step(reg, config, shapes, v), u.line, u.route.id)
    ensures forall l, q :: Registered(Step(reg, config, shapes, v), l, q) ==> RouteKey(l, q) in VisitedKeys(visits + [v])
  {
    var w := visits + [v];
    assert forall u :: u in w ==> u in visits || u == v;
    assert VisitedKeys(w) == VisitedKeys(visits) + {KeyOf(v)} by {
      assert v in w;
      forall k | k in VisitedKeys(visits) ensures k in VisitedKeys(w) {
        var u :| u in visits && KeyOf(u) == k;
        assert u in w;
      }
    }
  }

  /** A visit that is the first with its shape id finds no earlier visit with that shape id. */
  lemma FirstIsMiss(shapes: map<RouteKey, Shape>, visits: seq<Visit>, v: Visit)
    requires forall u :: u in visits + [v] ==> KeyOf(u) in shapes
    requires FirstWithShape(shapes, visits + [v], |visits|)
    ensures shapes[KeyOf(v)].id !in ShapeIds(shapes, visits)
  {
    var w := visits + [v];
    assert w[|visits|] == v;
    forall u | u in visits
      ensures shapes[KeyOf(u)].id != shapes[KeyOf(v)].id
    {
      var k :| 0 <= k < |visits| && visits[k] == u;
      assert w[k] == u;
    }
  }

  lemma StepKeepsFirst(reg: Registry, config: Config, shapes: map<RouteKey, Shape>, visits: seq<Visit>, v: Visit)
    requires KeyOf(v) in shapes
    requires forall u :: u in visits ==> KeyOf(u) in shapes
    requires CacheWellFormed(reg)
    requires CacheWellFormed(Step(reg, config, shapes, v))
    requires reg.byShape.Keys == ShapeIds(shapes, visits)
    requires BuiltFromFirst(reg, config, shapes, visits)
    ensures forall u :: u in visits + [v] ==> KeyOf(u) in shapes
    ensures BuiltFromFirst(Step(reg, config, shapes, v), config, shapes, visits + [v])
  {
    var r := Step(reg, config, shapes, v);
    var w := visits + [v];
    assert forall u :: u in w ==> u in visits || u == v;
    forall i | 0 <= i < |w| && FirstWithShape(shapes, w, i)
      ensures shapes[KeyOf(w[i])].id in r.byShape
      ensures r.built[r.byShape[shapes[KeyOf(w[i])].id]]
        == RouterSpec(ModesFor(config, w[i].route.transportMode), shapes[KeyOf(w[i])])
    {
      if i < |visits| {
        OldFirstKept(reg, config, shapes, visits, v, i);
      } else {
        FirstIsMiss(shapes, visits, v);
      }
    }
  }

  lemma OldFirstKept(reg: Registry, config: Config, shapes: map<RouteKey, Shape>, visits: seq<Visit>, v: Visit, i: nat)
    requires KeyOf(v) in shapes
    requires forall u :: u in visits ==> KeyOf(u) in shapes
    requires CacheWellFormed(reg)
    requires BuiltFromFirst(reg, config, shapes, visits)
    requires i < |visits|
    requires forall u :: u in visits + [v] ==> KeyOf(u) in shapes
    requires FirstWithShape(shapes, visits + [v], i)
    ensures shapes[KeyOf(visits[i])].id in Step(reg, config, shapes, v).byShape
    ensures Step(reg, config, shapes, v).built[Step(reg, config, shapes, v).byShape[shapes[KeyOf(visits[i])].id]]
      == RouterSpec(ModesFor(config, visits[i].route.transportMode), shapes[KeyOf(visits[i])])
  {
    var r := Step(reg, config, shapes, v);
    var w := visits + [v];
    assert forall j :: 0 <= j < i ==> w[j] == visits[j];
    assert w[i] == visits[i];
    assert FirstWithShape(shapes, visits, i);
    var t := shapes[KeyOf(visits[i])].id;
    assert t in reg.byShape && r.byShape[t] == reg.byShape[t];
    assert r.built[reg.byShape[t]] == reg.built[reg.byShape[t]];
  }

  lemma StepKeepsInvariant(
    reg: Registry, config: Config, shapes: map<RouteKey, Shape>, visits: seq<Visit>, v: Visit, next: seq<Visit>)
    requires Invariant(reg, config, shapes, visits)
    requires KeyOf(v) in shapes
    requires next == visits + [v]
    ensures Invariant(Step(reg, config, shapes, v), config, shapes, next)
  {
    StepKeepsCache(reg, config, shapes, visits, v);
    StepKeepsIndex(reg, config, shapes, visits, v);
    StepKeepsFirst(reg, config, shapes, visits, v);
  }

  /** The final facts `Init` promises, read off the invariant over the whole schedule. */
  lemma InvariantOverSchedule(reg: Registry, config: Config, schedule: ShapeSchedule)
    requires ShapesKnown(schedule)
    requires Invariant(reg, config, schedule.shapes, Visits(schedule.lines))
    ensures forall i, j :: 0 <= i < |schedule.lines| && 0 <= j < |schedule.lines[i].routes| ==>
      var key := RouteKey(schedule.lines[i].id, schedule.lines[i].routes[j].id);
      && Registered(reg, key.line, key.route)
      && schedule.shapes[key].id in reg.byShape
      && RouterAt(reg, key.line, key.route) == reg.byShape[schedule.shapes[key].id]
    ensures |reg.built| == |ShapeIds(schedule.shapes, Visits(schedule.lines))|
  {
    forall i, j | 0 <= i < |schedule.lines| && 0 <= j < |schedule.lines[i].routes|
      ensures Registered(reg, schedule.lines[i].id, schedule.lines[i].routes[j].id)
    {
      VisitsContains(schedule.lines, i, j);
    }
    assert |reg.byShape| == |reg.byShape.Keys|;
  }

  /**
   `init()`: for every line, for every route of the line, register the route
   with the router cached for its shape id, constructing that router on the
   first visit of the shape id.
   */
  method Init(config: Config, schedule: ShapeSchedule) returns (reg: Registry)
    requires ShapesKnown(schedule)
    ensures Invariant(reg, config, schedule.shapes, Visits(schedule.lines))
    ensures reg == Run(Empty(), config, schedule.shapes, Visits(schedule.lines))
    // every visited (line, route) is registered, with the router cached for its shape
    ensures forall i, j :: 0 <= i < |schedule.lines| && 0 <= j < |schedule.lines[i].routes| ==>
      var key := RouteKey(schedule.lines[i].id, schedule.lines[i].routes[j].id);
      && Registered(reg, key.line, key.route)
      && schedule.shapes[key].id in reg.byShape
      && RouterAt(reg, key.line, key.route) == reg.byShape[schedule.shapes[key].id]
    // one construction per distinct shape id
    ensures |reg.built| == |ShapeIds(schedule.shapes, Visits(schedule.lines))|
  {
    var lines := schedule.lines;
    var shapes := schedule.shapes;
    reg := Empty();
    var i := 0;
    while i < |lines|
      invariant 0 <= i <= |lines|
      invariant forall v :: v in Visits(lines[..i]) ==> KeyOf(v) in shapes
      invariant reg == Run(Empty(), config, shapes, Visits(lines[..i]))
    {
      VisitsSnoc(lines, i);
      reg := RegisterLine(reg, config, shapes, lines[i], Visits(lines[..i]));
      i := i + 1;
    }
    assert lines[..i] == lines;
    RunKeepsInvariant(config, shapes, Visits(lines));
    InvariantOverSchedule(reg, config, schedule);
  }

  /**
   The inner loop of `init()` over the routes of one line, continuing from
   the registry built over `visited`.
   */
  method RegisterLine(reg0: Registry, config: Config, shapes: map<RouteKey, Shape>, line: TransitLine,
                      ghost visited: seq<Visit>)
    returns (reg: Registry)
    requires forall j :: 0 <= j < |line.routes| ==> RouteKey(line.id, line.routes[j].id) in shapes
    requires forall v :: v in visited ==> KeyOf(v) in shapes
    requires reg0 == Run(Empty(), config, shapes, visited)
    ensures forall v :: v in visited + LineVisits(line.id, line.routes) ==> KeyOf(v) in shapes
    ensures reg == Run(Empty(), config, shapes, visited + LineVisits(line.id, line.routes))
  {
    reg := reg0;
    assert LineVisits(line.id, line.routes[..0]) == [];
    assert visited + LineVisits(line.id, line.routes[..0]) == visited;
    var j := 0;
    while j < |line.routes|
      invariant 0 <= j <= |line.routes|
      invariant forall v :: v in visited + LineVisits(line.id, line.routes[..j]) ==> KeyOf(v) in shapes
      invariant reg == Run(Empty(), config, shapes, visited + LineVisits(line.id, line.routes[..j]))
    {
      StepRouteRun(config, shapes, line, visited, j);
      reg := Step(reg, config, shapes, Visit(line.id, line.routes[j]));
      j := j + 1;
    }
    assert line.routes[..j] == line.routes;
  }

  /** One iteration of the inner loop agrees with `Run`. */
  lemma StepRouteRun(config: Config, shapes: map<RouteKey, Shape>, line: TransitLine, visited: seq<Visit>, j: nat)
    requires j < |line.routes|
    requires forall u :: u in visited + LineVisits(line.id, line.routes[..j]) ==> KeyOf(u) in shapes
    requires RouteKey(line.id, line.routes[j].id) in shapes
    ensures forall u :: u in visited + LineVisits(line.id, line.routes[..j + 1]) ==> KeyOf(u) in shapes
    ensures Step(Run(Empty(), config, shapes, visited + LineVisits(line.id, line.routes[..j])),
                 config, shapes, Visit(line.id, line.routes[j]))
      == Run(Empty(), config, shapes, visited + LineVisits(line.id, line.routes[..j + 1]))
  {
    var v := Visit(line.id, line.routes[j]);
    var current := visited + LineVisits(line.id, line.routes[..j]);
    LineVisitsSnoc(line.id, line.routes, j);
    assert current + [v] == visited + LineVisits(line.id, line.routes[..j + 1]);
    RunSnoc(config, shapes, current, v);
  }

  lemma RunSnoc(config: Config, shapes: map<RouteKey, Shape>, visits: seq<Visit>, v: Visit)
    requires forall u :: u in visits ==> KeyOf(u) in shapes
    requires KeyOf(v) in shapes
    ensures forall u :: u in visits + [v] ==> KeyOf(u) in shapes
    ensures Run(Empty(), config, shapes, visits + [v])
      == Step(Run(Empty(), config, shapes, visits), config, shapes, v)
  {
    assert (visits + [v])[..|visits|] == visits;
  }

  lemma VisitsSnoc(lines: seq<TransitLine>, i: nat)
    requires i < |lines|
    ensures Visits(lines[..i + 1]) == Visits(lines[..i]) + LineVisits(lines[i].id, lines[i].routes)
  {
    assert lines[..i + 1][..i] == lines[..i];
  }

  lemma LineVisitsSnoc(line: LineId, routes: seq<TransitRoute>, j: nat)
    requires j < |routes|
    ensures LineVisits(line, routes[..j + 1]) == LineVisits(line, routes[..j]) + [Visit(line, routes[j])]
  {
    assert routes[..j + 1][..j] == routes[..j];
  }

  lemma {:induction false} LineVisitsContains(line: LineId, routes: seq<TransitRoute>, j: nat)
    requires j < |routes|
    ensures Visit(line, routes[j]) in LineVisits(line, routes)
  {
    if j < |routes| - 1 {
      LineVisitsContains(line, routes[..|routes| - 1], j);
    }
  }

  lemma {:induction false} VisitsContains(lines: seq<TransitLine>, i: nat, j: nat)
    requires i < |lines| && j < |lines[i].routes|
    ensures Visit(lines[i].id, lines[i].routes[j]) in Visits(lines)
  {
    if i < |lines| - 1 {
      VisitsContains(lines[..|lines| - 1], i, j);
    } else {
      LineVisitsContains(lines[i].id, lines[i].routes, j);
    }
  }

  // ---------------------------------------------------------------------
  // What the populated registry promises
  // ---------------------------------------------------------------------

  /** The registry the loop builds from empty over `visits` satisfies the invariant. */
  lemma {:induction false} RunKeepsInvariant(config: Config, shapes: map<RouteKey, Shape>, visits: seq<Visit>)
    requires forall v :: v in visits ==> KeyOf(v) in shapes
    ensures Invariant(Run(Empty(), config, shapes, visits), config, shapes, visits)
  {
    if visits == [] {
      EmptyInvariant(config, shapes);
    } else {
      var prefix := visits[..|visits| - 1];
      var last := visits[|visits| - 1];
      assert last in visits;
      assert forall v :: v in prefix ==> v in visits;
      assert prefix + [last] == visits;
      RunKeepsInvariant(config, shapes, prefix);
      StepKeepsInvariant(Run(Empty(), config, shapes, prefix), config, shapes, prefix, last, visits);
    }
  }

  /**
   After the loop over `visits`, the router registered for a visited route is
   a constructed router bound to a shape with the route's shape id.
   */
  lemma RouterBoundToRouteShape(
    config: Config, shapes: map<RouteKey, Shape>, visits: seq<Visit>, line: LineId, route: RouteId)
    requires forall v :: v in visits ==> KeyOf(v) in shapes
    requires RouteKey(line, route) in VisitedKeys(visits)
    ensures var reg := Run(Empty(), config, shapes, visits);
      && RouteKey(line, route) in shapes
      && Registered(reg, line, route)
      && RouterAt(reg, line, route) < |reg.built|
      && reg.built[RouterAt(reg, line, route)].shape.id == shapes[RouteKey(line, route)].id
  {
    RunKeepsInvariant(config, shapes, visits);
    var v :| v in visits && KeyOf(v) == RouteKey(line, route);
  }

  /**
   After the loop over `visits`, two visited routes, on one line or on
   different lines, hold the identical router exactly when their shape ids
   are equal.
   */
  lemma SharedRouterIffSameShape(
    config: Config, shapes: map<RouteKey, Shape>, visits: seq<Visit>,
    line1: LineId, route1: RouteId, line2: LineId, route2: RouteId)
    requires forall v :: v in visits ==> KeyOf(v) in shapes
    requires RouteKey(line1, route1) in VisitedKeys(visits) && RouteKey(line2, route2) in VisitedKeys(visits)
    ensures var reg := Run(Empty(), config, shapes, visits);
      && RouteKey(line1, route1) in shapes && RouteKey(line2, route2) in shapes
      && Registered(reg, line1, route1) && Registered(reg, line2, route2)
      && (RouterAt(reg, line1, route1) == RouterAt(reg, line2, route2)
          <==> shapes[RouteKey(line1, route1)].id == shapes[RouteKey(line2, route2)].id)
  {
    RunKeepsInvariant(config, shapes, visits);
    RouterBoundToRouteShape(config, shapes, visits, line1, route1);
    RouterBoundToRouteShape(config, shapes, visits, line2, route2);
  }

  /**
   After the loop over `visits`, a later route with the shape id of an
   earlier first visit gets that visit's router unchanged, even when its
   transport mode differs: the router's network modes are those assigned to
   the first route's transport mode.
   */
  lemma LaterRouteReusesFirstRouter(
    config: Config, shapes: map<RouteKey, Shape>, visits: seq<Visit>, i: nat, k: nat)
    requires forall v :: v in visits ==> KeyOf(v) in shapes
    requires i < k < |visits|
    requires FirstWithShape(shapes, visits, i)
    requires shapes[KeyOf(visits[k])].id == shapes[KeyOf(visits[i])].id
    ensures var reg := Run(Empty(), config, shapes, visits);
      && Registered(reg, visits[i].line, visits[i].route.id)
      && Registered(reg, visits[k].line, visits[k].route.id)
      && RouterAt(reg, visits[k].line, visits[k].route.id) == RouterAt(reg, visits[i].line, visits[i].route.id)
      && RouterAt(reg, visits[k].line, visits[k].route.id) < |reg.built|
      && reg.built[RouterAt(reg, visits[k].line, visits[k].route.id)]
         == RouterSpec(ModesFor(config, visits[i].route.transportMode), shapes[KeyOf(visits[i])])
  {
    RunKeepsInvariant(config, shapes, visits);
    assert visits[i] in visits && visits[k] in visits;
  }

  /** Every visit is already registered with the router cached for its shape id. */
  ghost predicate AllHit(reg: Registry, shapes: map<RouteKey, Shape>, visits: seq<Visit>) {
    forall v :: v in visits ==>
      && KeyOf(v) in shapes
      && shapes[KeyOf(v)].id in reg.byShape
      && Registered(reg, v.line, v.route.id)
      && RouterAt(reg, v.line, v.route.id) == reg.byShape[shapes[KeyOf(v)].id]
  }

  /** Visiting an already registered route constructs nothing and changes nothing. */
  lemma StepOnHitIsNoOp(reg: Registry, config: Config, shapes: map<RouteKey, Shape>, v: Visit)
    requires KeyOf(v) in shapes && shapes[KeyOf(v)].id in reg.byShape
    requires Registered(reg, v.line, v.route.id)
    requires RouterAt(reg, v.line, v.route.id) == reg.byShape[shapes[KeyOf(v)].id]
    ensures Step(reg, config, shapes, v) == reg
  {
    var r := Step(reg, config, shapes, v);
    assert r.byRoute[v.line] == reg.byRoute[v.line];
    assert r.byRoute == reg.byRoute;
  }

  lemma {:induction false} RunOnHitsIsNoOp(
    reg: Registry, config: Config, shapes: map<RouteKey, Shape>, visits: seq<Visit>)
    requires AllHit(reg, shapes, visits)
    ensures forall v :: v in visits ==> KeyOf(v) in shapes
    ensures Run(reg, config, shapes, visits) == reg
  {
    if visits != [] {
      var last := visits[|visits| - 1];
      assert last in visits;
      assert forall v :: v in visits[..|visits| - 1] ==> v in visits;
      RunOnHitsIsNoOp(reg, config, shapes, visits[..|visits| - 1]);
      StepOnHitIsNoOp(reg, config, shapes, last);
    }
  }

  /**
   Calling the public `init()` a second time over the same schedule is a
   no-op: no router is constructed and no entry changes.
   */
  lemma ReinitIsNoOp(config: Config, shapes: map<RouteKey, Shape>, visits: seq<Visit>)
    requires forall v :: v in visits ==> KeyOf(v) in shapes
    ensures Run(Run(Empty(), config, shapes, visits), config, shapes, visits) == Run(Empty(), config, shapes, visits)
  {
    RunKeepsInvariant(config, shapes, visits);
    RunOnHitsIsNoOp(Run(Empty(), config, shapes, visits), config, shapes, visits);
  }

  /**
   After the loop over `visits`, `getRouter(line, route)` on a known line
   finds the router cached for the route's shape id when the route was
   visited, and is absent otherwise.
   */
  lemma GetRouterAfterRun(
    config: Config, shapes: map<RouteKey, Shape>, visits: seq<Visit>, line: LineId, route: RouteId)
    requires forall v :: v in visits ==> KeyOf(v) in shapes
    requires line in Run(Empty(), config, shapes, visits).byRoute
    ensures var reg := Run(Empty(), config, shapes, visits);
      if RouteKey(line, route) in VisitedKeys(visits) then
        && RouteKey(line, route) in shapes
        && shapes[RouteKey(line, route)].id in reg.byShape
        && GetRouter(reg, line, route) == Some(reg.byShape[shapes[RouteKey(line, route)].id])
      else GetRouter(reg, line, route) == None
  {
    RunKeepsInvariant(config, shapes, visits);
    if RouteKey(line, route) in VisitedKeys(visits) {
      var v :| v in visits && KeyOf(v) == RouteKey(line, route);
    }
  }
}
