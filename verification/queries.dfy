/**
 The query surface of ScheduleRoutersWithShapes: every (line, route) query
 looks up the registered router and hands the request to it unchanged.

 Routers are opaque, so a query's result is modelled as the call it makes:
 which router is asked, and what it is asked.
 */
module Queries {
  import opened Wrappers
  import opened Transit
  import opened RouterRegistry

  /** A request handed to a shape router; its numeric answer is the router's business. */
  datatype Request =
    | LeastCostPath(fromNode: NodeId, toNode: NodeId)
    | MinimalTravelCost(fromStop: RouteStop, toStop: RouteStop)
    | ArtificialLinkFreeSpeed(maxAllowedTravelCost: real, current: LinkCandidate, next: LinkCandidate)
    | ArtificialLinkLength(maxAllowedTravelCost: real, current: LinkCandidate, next: LinkCandidate)

  /** The call a query makes: the router consulted and the request it receives. */
  datatype Call = Call(router: RouterHandle, request: Request)

  /** Hands `request`, unchanged, to the router `getRouter(line, route)` returns. */
  function Dispatch(reg: Registry, line: LineId, route: RouteId, request: Request): (c: Call)
    requires Registered(reg, line, route)
    ensures GetRouter(reg, line, route) == Some(c.router)
    ensures c.request == request
  {
    Call(reg.byRoute[line][route], request)
  }

  /** `calcLeastCostPath(fromNodeId, toNodeId, line, route)`: the node endpoints are passed on unchanged. */
  function CalcLeastCostPath(reg: Registry, fromNode: NodeId, toNode: NodeId, line: LineId, route: RouteId)
    : (c: Call)
    requires Registered(reg, line, route)
    ensures GetRouter(reg, line, route) == Some(c.router)
    ensures c.request == LeastCostPath(fromNode, toNode)
  {
    Dispatch(reg, line, route, LeastCostPath(fromNode, toNode))
  }

  /**
   `calcLeastCostPath(fromLinkCandidate, toLinkCandidate, line, route)`: routes
   from the first candidate's to-node to the second candidate's from-node.
   */
  function CalcLeastCostPathBetween(
    reg: Registry, fromCandidate: LinkCandidate, toCandidate: LinkCandidate, line: LineId, route: RouteId)
    : (c: Call)
    requires Registered(reg, line, route)
    ensures c == CalcLeastCostPath(reg, fromCandidate.toNode, toCandidate.fromNode, line, route)
  {
    Dispatch(reg, line, route, LeastCostPath(fromCandidate.toNode, toCandidate.fromNode))
  }

  /** `getMinimalTravelCost(fromStop, toStop, line, route)`. */
  function GetMinimalTravelCost(reg: Registry, fromStop: RouteStop, toStop: RouteStop, line: LineId, route: RouteId)
    : (c: Call)
    requires Registered(reg, line, route)
    ensures GetRouter(reg, line, route) == Some(c.router)
    ensures c.request == MinimalTravelCost(fromStop, toStop)
  {
    Dispatch(reg, line, route, MinimalTravelCost(fromStop, toStop))
  }

  /** `getArtificialLinkFreeSpeed(maxAllowedTravelCost, current, next, line, route)`. */
  function GetArtificialLinkFreeSpeed(
    reg: Registry, maxAllowedTravelCost: real, current: LinkCandidate, next: LinkCandidate, line: LineId, route: RouteId)
    : (c: Call)
    requires Registered(reg, line, route)
    ensures GetRouter(reg, line, route) == Some(c.router)
    ensures c.request == ArtificialLinkFreeSpeed(maxAllowedTravelCost, current, next)
  {
    Dispatch(reg, line, route, ArtificialLinkFreeSpeed(maxAllowedTravelCost, current, next))
  }

  /** `getArtificialLinkLength(maxAllowedTravelCost, current, next, line, route)`. */
  function GetArtificialLinkLength(
    reg: Registry, maxAllowedTravelCost: real, current: LinkCandidate, next: LinkCandidate, line: LineId, route: RouteId)
    : (c: Call)
    requires Registered(reg, line, route)
    ensures GetRouter(reg, line, route) == Some(c.router)
    ensures c.request == ArtificialLinkLength(maxAllowedTravelCost, current, next)
  {
    Dispatch(reg, line, route, ArtificialLinkLength(maxAllowedTravelCost, current, next))
  }

  /**
   After the loop over `visits`, two visited routes make the same call for
   the same request exactly when their shape ids are equal: routes sharing a
   shape share the router and so every answer, and no other routes do.
   */
  lemma SameCallIffSameShape(
    config: Config, shapes: map<RouteKey, Shape>, visits: seq<Visit>,
    line1: LineId, route1: RouteId, line2: LineId, route2: RouteId, request: Request)
    requires forall v :: v in visits ==> KeyOf(v) in shapes
    requires RouteKey(line1, route1) in VisitedKeys(visits) && RouteKey(line2, route2) in VisitedKeys(visits)
    ensures var reg := Run(Empty(), config, shapes, visits);
      && RouteKey(line1, route1) in shapes && RouteKey(line2, route2) in shapes
      && Registered(reg, line1, route1) && Registered(reg, line2, route2)
      && (Dispatch(reg, line1, route1, request) == Dispatch(reg, line2, route2, request)
          <==> shapes[RouteKey(line1, route1)].id == shapes[RouteKey(line2, route2)].id)
  {
    SharedRouterIffSameShape(config, shapes, visits, line1, route1, line2, route2);
  }

  /**
   After the loop over `visits`, every query on a visited route is answered
   by a constructed router bound to a shape with the route's shape id.
   */
  lemma QueryUsesRouteShape(
    config: Config, shapes: map<RouteKey, Shape>, visits: seq<Visit>, line: LineId, route: RouteId, request: Request)
    requires forall v :: v in visits ==> KeyOf(v) in shapes
    requires RouteKey(line, route) in VisitedKeys(visits)
    ensures var reg := Run(Empty(), config, shapes, visits);
      && RouteKey(line, route) in shapes
      && Registered(reg, line, route)
      && Dispatch(reg, line, route, request).router < |reg.built|
      && reg.built[Dispatch(reg, line, route, request).router].shape.id == shapes[RouteKey(line, route)].id
  {
    RouterBoundToRouteShape(config, shapes, visits, line, route);
  }
}
