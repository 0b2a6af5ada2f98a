# Router registry of ScheduleRoutersWithShapes

A Dafny model of `ScheduleRoutersWithShapes` from pt2matsim, the component
that gives every transit route of a schedule a shape-biased network router.
`init()` walks every transit line and every route of the line, looks up the
route's shape id and reuses the router cached for that shape id, constructing
one (from the network modes assigned to the route's transport mode and the
route's shape) only on a cache miss. In every case it records
line -> route -> router in a two-level index. The query methods look up the
router of a (line, route) and hand the call to it unchanged.

Layout:

- `wrappers.dfy` — `Option`, standing for a Java value that may be null.
- `transit.dfy` — the read-only inputs: shapes, transit lines and routes, the
  shape schedule (`shapes` maps a (line, route) key to its shape, as
  `ShapeSchedule.getShape(lineId, routeId)` does), the mode-routing
  configuration and link candidates. `Visits` flattens the nested loop's
  iterations into one sequence.
- `registry.dfy` — the registry state, one loop iteration (`Step`), `Init`
  as the nested loop (`Init` over lines, `RegisterLine` over one line's
  routes), the invariant the loop keeps, and what it gives the caller.
- `queries.dfy` — the dispatching query methods.
- `scenarios.dfy` — a concrete schedule worked through the loop.

A router is an opaque handle: a `nat` index into `built`, the sequence of
routers constructed so far, whose entries record what each router was
constructed from (`RouterSpec`: network modes and shape). Handle equality is
Java reference identity, and `|built|` counts constructions. A query's answer
is modelled as the `Call` it makes: the router consulted and the request it
is handed.

The lemmas about the populated registry are stated of
`Run(Empty(), config, shapes, visits)`, the registry built from empty over a
sequence of visited routes; `Init` is proved to return exactly that registry
for the visits of its schedule.

The registry invariant (`RouterRegistry.Invariant`, after visiting a sequence
of routes) says: every cached handle names a constructed router for that very
shape id and nothing else was constructed; the cached shape ids are exactly
the visited shape ids; every registered (line, route) holds the router cached
for its shape id; exactly the visited (line, route) pairs are registered; and
the router of each shape id was constructed from the first visited route with
that shape id.

`init` raises nothing for a transport mode with no mode-routing entry:
`getModeRoutingAssignment().get(mode)` yields null (line 51), which goes to
the router constructor. The model records this as `RouterSpec.modes == None`
(`Transit.ModesFor`), as `Scenarios.SharedShapeAcrossLines` shows.

## Model

| member | source | states |
|---|---|---|
| Transit.ModesFor | src/main/java/org/matsim/pt2matsim/mapping/networkRouter/ScheduleRoutersWithShapes.java:51 | The mode-assignment lookup is present exactly when the configuration has an entry for the transport mode, and then yields that entry's network modes; a missing entry is absent, not an error |
| RouterRegistry.Empty | src/main/java/org/matsim/pt2matsim/mapping/networkRouter/ScheduleRoutersWithShapes.java:29-39 | The constructed registry before `init` has both maps empty: no router constructed, nothing cached, no (line, route) registered |
| RouterRegistry.Init | src/main/java/org/matsim/pt2matsim/mapping/networkRouter/ScheduleRoutersWithShapes.java:41-58 | After `init` every (line, route) of the schedule is registered, with the router cached for its shape id; the number of routers constructed equals the number of distinct shape ids among the visited routes; the registry invariant holds over all visits, and the result equals the step-by-step fold `Run` |
| RouterRegistry.RegisterLine | src/main/java/org/matsim/pt2matsim/mapping/networkRouter/ScheduleRoutersWithShapes.java:45-56 | The inner loop over one line's routes, continued from the registry built over the earlier visits, yields the registry built over those visits followed by the line's routes in order |
| RouterRegistry.Step | src/main/java/org/matsim/pt2matsim/mapping/networkRouter/ScheduleRoutersWithShapes.java:47-55 | One iteration never overwrites or removes a cache entry; it constructs exactly one router (from the route's mode assignment and shape, cached under the next handle) when the shape id is missing and none when present; afterwards (line, route) is registered with the router cached for its shape id, no registration is lost, and no other registration changes |
| RouterRegistry.Put | src/main/java/org/matsim/pt2matsim/mapping/networkRouter/ScheduleRoutersWithShapes.java:55 | Registering (line, route) in the two-level index creates the line's inner map when missing, stores the router, adds exactly that key and leaves every other line's map and every other route's entry unchanged |
| RouterRegistry.GetRouterForMode | src/main/java/org/matsim/pt2matsim/mapping/networkRouter/ScheduleRoutersWithShapes.java:78-81 | The mode-keyed accessor returns absent whatever the mode |
| RouterRegistry.StepKeepsCache | src/main/java/org/matsim/pt2matsim/mapping/networkRouter/ScheduleRoutersWithShapes.java:48-53 | At most one router per shape id: one iteration keeps the cache a bijection between the visited shape ids and the constructed routers, each router bound to a shape with its key's id |
| RouterRegistry.StepKeepsIndex | src/main/java/org/matsim/pt2matsim/mapping/networkRouter/ScheduleRoutersWithShapes.java:47-55 | One iteration keeps every registered (line, route) pointing at the router cached for its shape id, registers the visited route, and registers nothing that was not visited |
| RouterRegistry.StepKeepsFirst | src/main/java/org/matsim/pt2matsim/mapping/networkRouter/ScheduleRoutersWithShapes.java:48-53 | One iteration keeps every shape id's router equal to the one constructed from the first visited route with that shape id |
| RouterRegistry.FirstIsMiss | src/main/java/org/matsim/pt2matsim/mapping/networkRouter/ScheduleRoutersWithShapes.java:48-49 | The first visit of a shape id finds its shape id among no earlier visits, so the cache lookup misses |
| RouterRegistry.StepKeepsInvariant | src/main/java/org/matsim/pt2matsim/mapping/networkRouter/ScheduleRoutersWithShapes.java:47-55 | One iteration of the inner loop preserves the whole registry invariant |
| RouterRegistry.InvariantOverSchedule | src/main/java/org/matsim/pt2matsim/mapping/networkRouter/ScheduleRoutersWithShapes.java:44-55 | The invariant over all visits gives: every (line, route) of the nested schedule is registered with its shape's cached router, and the constructions number the distinct shape ids |
| RouterRegistry.VisitsContains | src/main/java/org/matsim/pt2matsim/mapping/networkRouter/ScheduleRoutersWithShapes.java:44-45 | Every route of every line is among the iterations of the nested loop |
| RouterRegistry.RunKeepsInvariant | src/main/java/org/matsim/pt2matsim/mapping/networkRouter/ScheduleRoutersWithShapes.java:44-57 | The registry built from empty over any sequence of visited routes satisfies the registry invariant over that sequence |
| RouterRegistry.RouterBoundToRouteShape | src/main/java/org/matsim/pt2matsim/mapping/networkRouter/ScheduleRoutersWithShapes.java:47-55 | After `init`, the router registered for a visited route is a constructed router bound to a shape with the route's shape id |
| RouterRegistry.SharedRouterIffSameShape | src/main/java/org/matsim/pt2matsim/mapping/networkRouter/ScheduleRoutersWithShapes.java:47-55 | After `init`, two visited routes, on one line or on different lines, hold the identical router if and only if their shape ids are equal |
| RouterRegistry.LaterRouteReusesFirstRouter | src/main/java/org/matsim/pt2matsim/mapping/networkRouter/ScheduleRoutersWithShapes.java:48-55 | A later route with the shape id of an earlier first visit gets that visit's router unchanged, whose network modes are those assigned to the first route's transport mode, whatever the later route's own mode |
| RouterRegistry.StepOnHitIsNoOp | src/main/java/org/matsim/pt2matsim/mapping/networkRouter/ScheduleRoutersWithShapes.java:48-55 | Visiting a route already registered with its shape's cached router constructs nothing and changes nothing |
| RouterRegistry.ReinitIsNoOp | src/main/java/org/matsim/pt2matsim/mapping/networkRouter/ScheduleRoutersWithShapes.java:41-58 | Calling the public `init()` again over the same routes leaves the registry `init` built exactly as it was: no construction, no changed entry |
| RouterRegistry.GetRouter | src/main/java/org/matsim/pt2matsim/mapping/networkRouter/ScheduleRoutersWithShapes.java:73-76 | On a known line, the result is present exactly when (line, route) is registered, and then is the registered router; an unregistered route on a known line yields absent (Java null) |
| RouterRegistry.GetRouterAfterRun | src/main/java/org/matsim/pt2matsim/mapping/networkRouter/ScheduleRoutersWithShapes.java:73-76 | After `init`, `getRouter(line, route)` on a known line returns the router cached for the route's shape id when the route was visited, and absent otherwise |
| Queries.Dispatch | src/main/java/org/matsim/pt2matsim/mapping/networkRouter/ScheduleRoutersWithShapes.java:64-95 | A (line, route) query consults exactly the router `getRouter(line, route)` returns and hands it the request unchanged |
| Queries.CalcLeastCostPath | src/main/java/org/matsim/pt2matsim/mapping/networkRouter/ScheduleRoutersWithShapes.java:68-71 | The node overload asks `getRouter(line, route)`'s router for a path between the given nodes, unchanged |
| Queries.CalcLeastCostPathBetween | src/main/java/org/matsim/pt2matsim/mapping/networkRouter/ScheduleRoutersWithShapes.java:63-66 | The link-candidate overload is the node overload from the first candidate's to-node to the second candidate's from-node |
| Queries.GetMinimalTravelCost | src/main/java/org/matsim/pt2matsim/mapping/networkRouter/ScheduleRoutersWithShapes.java:83-86 | Asks `getRouter(line, route)`'s router for the minimal travel cost between the two stops, unchanged |
| Queries.GetArtificialLinkFreeSpeed | src/main/java/org/matsim/pt2matsim/mapping/networkRouter/ScheduleRoutersWithShapes.java:88-91 | Asks `getRouter(line, route)`'s router for the artificial link free speed with the cost budget and candidates unchanged |
| Queries.GetArtificialLinkLength | src/main/java/org/matsim/pt2matsim/mapping/networkRouter/ScheduleRoutersWithShapes.java:93-96 | Asks `getRouter(line, route)`'s router for the artificial link length with the cost budget and candidates unchanged |
| Queries.SameCallIffSameShape | src/main/java/org/matsim/pt2matsim/mapping/networkRouter/ScheduleRoutersWithShapes.java:63-96 | After `init`, two visited routes make the identical call for the same request if and only if their shape ids are equal |
| Queries.QueryUsesRouteShape | src/main/java/org/matsim/pt2matsim/mapping/networkRouter/ScheduleRoutersWithShapes.java:63-96 | After `init`, every query on a visited route is answered by a constructed router bound to a shape with the route's shape id |
| Scenarios.SharedShapeAcrossLines | src/main/java/org/matsim/pt2matsim/mapping/networkRouter/ScheduleRoutersWithShapes.java:44-56 | Two routes on different lines with shape "shp_42", the first with an unassigned mode: one router is constructed, with absent network modes and no error, and both routes hold it |

## Left out

- `RouterShapes.setTravelCostType` (line 42): a static global setting of the router class, outside the registry's state.
- Logging (lines 46, 50): no effect on the registry.
- The `RouterShapes` router itself (its shape-biased cost, path search, minimal travel cost and artificial link parameters): its source is not part of this model, so routers are opaque handles and queries are modelled as the calls they make.
- The floating-point answers of the query methods: only which router is asked, and with what, is modelled; the cost budget is carried as a `real` without arithmetic.
- The `Network` passed to every router: one shared read-only value, not recorded in `RouterSpec`.
- Queries on an unregistered (line, route), which dereference null in the source (line 65, 70, 85, 90, 95): the query functions require the route to be registered.
- RouterRegistry.GetRouter: an unknown line dereferences null at line 75, so it requires the line to be known; an unknown route on a known line is modelled (absent).
- A (line, route) without a shape, which dereferences null in `init`: `Init` requires every route to have one (`ShapesKnown`).
- Hash-map iteration order of lines and routes: the schedule is an arbitrary sequence of lines, each with a sequence of routes.
- The index is keyed by line and route ids, where the source keys it by the `TransitLine` and `TransitRoute` objects; within one schedule the ids identify the objects.
- Concurrency: the registry is built in one thread and read-only afterwards; the pure model has no mutation after `Init` at all.
