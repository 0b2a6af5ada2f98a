/**
 The read-only inputs of the router registry: identifiers, shapes, the
 transit schedule, the mode-routing configuration and link candidates.
 */
module Transit {
  import opened Wrappers

  type LineId = string
  type RouteId = string
  type ShapeId = string
  type NodeId = string
  type LinkId = string
  type Mode = string

  /** A point of a shape's geometry; coordinates are only carried, never computed with. */
  datatype Coord = Coord(x: real, y: real)

  /** A geometric reference curve, named by its shape id. */
  datatype Shape = Shape(id: ShapeId, points: seq<Coord>)

  /** A transit route of a line: its id and the transport mode of the schedule. */
  datatype TransitRoute = TransitRoute(id: RouteId, transportMode: Mode)

  /** A transit line and its routes, in iteration order. */
  datatype TransitLine = TransitLine(id: LineId, routes: seq<TransitRoute>)

  /** The (line, route) identity under which a shape is stored and a router is registered. */
  datatype RouteKey = RouteKey(line: LineId, route: RouteId)

  /**
   A schedule with shapes: the transit lines, in iteration order, and the
   shape assigned to each (line, route).
   */
  datatype ShapeSchedule = ShapeSchedule(lines: seq<TransitLine>, shapes: map<RouteKey, Shape>)

  /** The part of the mapping configuration the registry reads: schedule mode -> network modes. */
  datatype Config = Config(modeRouting: map<Mode, set<Mode>>)

  /** A stop of a transit route, passed through to a router unchanged. */
  datatype RouteStop = RouteStop(facility: string)

  /** A proposed network link for a stop, with its departure and arrival nodes. */
  datatype LinkCandidate = LinkCandidate(link: LinkId, fromNode: NodeId, toNode: NodeId)

  /** The network modes assigned to a schedule mode, absent when the configuration has no entry. */
  function ModesFor(config: Config, mode: Mode): (r: Option<set<Mode>>)
    ensures r.Some? <==> mode in config.modeRouting
    ensures r.Some? ==> r.value == config.modeRouting[mode]
  {
    if mode in config.modeRouting then Some(config.modeRouting[mode]) else None
  }

  /** One iteration of the registry's nested loop: a route together with its line. */
  datatype Visit = Visit(line: LineId, route: TransitRoute)

  function KeyOf(v: Visit): RouteKey {
    RouteKey(v.line, v.route.id)
  }

  /** The visits of one line's routes, in order. */
  function LineVisits(line: LineId, routes: seq<TransitRoute>): seq<Visit> {
    if routes == [] then []
    else LineVisits(line, routes[..|routes| - 1]) + [Visit(line, routes[|routes| - 1])]
  }

  /** The visits of the nested loop over all lines and their routes, in order. */
  function Visits(lines: seq<TransitLine>): seq<Visit> {
    if lines == [] then []
    else Visits(lines[..|lines| - 1]) + LineVisits(lines[|lines| - 1].id, lines[|lines| - 1].routes)
  }

  /** Every (line, route) of the schedule has a shape; the source dereferences the shape unchecked. */
  ghost predicate ShapesKnown(schedule: ShapeSchedule) {
    forall i, j :: 0 <= i < |schedule.lines| && 0 <= j < |schedule.lines[i].routes| ==>
      RouteKey(schedule.lines[i].id, schedule.lines[i].routes[j].id) in schedule.shapes
  }

  /** The distinct shape ids among a sequence of visits. */
  ghost function ShapeIds(shapes: map<RouteKey, Shape>, visits: seq<Visit>): set<ShapeId> {
    set v | v in visits && KeyOf(v) in shapes :: shapes[KeyOf(v)].id
  }

  /** The (line, route) keys of a sequence of visits. */
  ghost function VisitedKeys(visits: seq<Visit>): set<RouteKey> {
    set v | v in visits :: KeyOf(v)
  }
}
