/** Dead reckoning in coordinates: how far the successes of each direction have carried the robot. */
module RobotMovement {
  import opened Options
  import opened CommandStore
  import opened RobotProtocol
  import opened RobotProtocolInvariant
  import opened RobotProtocolTheorems

  /** The sum of the distances of the successes in one direction. */
  ghost function Total(h: Reserved, trail: seq<Position>, d: Direction): real
    requires forall p :: p in trail ==> p.command in h
  {
    if trail == [] then 0.0
    else
      var last := h[trail[|trail| - 1].command].record.action;
      Total(h, trail[..|trail| - 1], d) + if last.direction == d then last.distance else 0.0
  }

  lemma {:induction false} TravelledByDirection(h: Reserved, trail: seq<Position>)
    requires forall p :: p in trail ==> p.command in h
    ensures Travelled(h, trail).x == Total(h, trail, East) - Total(h, trail, West)
    ensures Travelled(h, trail).y == Total(h, trail, North) - Total(h, trail, South)
  {
    if trail != [] {
      TravelledByDirection(h, trail[..|trail| - 1]);
    }
  }

  /** A position is reached from another by the successes of a trail. */
  ghost predicate ReachedBy(h: Reserved, trail: seq<Position>, from: Point, to: Point)
    requires forall p :: p in trail ==> p.command in h
  {
    && to.x == from.x + Total(h, trail, East) - Total(h, trail, West)
    && to.y == from.y + Total(h, trail, North) - Total(h, trail, South)
  }

  /**
   In every run a stored position is the dock centroid of the last success that
   started from the dock, plus the distances of the NORTH successes since then minus
   those of the SOUTH ones in y, and EAST minus WEST in x.
   */
  lemma PositionByDirection(ws: seq<World>, es: seq<Event>, i: nat)
    requires Run(ws, es) && i < |ws| && ws[i].keys.position.Some?
    ensures
      var h := ws[i].history;
      && h.trail != [] && TrailReserved(h)
      && var j := LastDock(h, |h.trail|);
         && h.reserved[h.trail[j].command].context.dock.Some?
         && ReachedBy(
              h.reserved, h.trail[j..], h.reserved[h.trail[j].command].context.dock.value,
              ws[i].keys.position.value.at)
  {
    DeadReckoningSinceTheDock(ws, es, i);
    var h := ws[i].history;
    TravelledByDirection(h.reserved, h.trail[LastDock(h, |h.trail|)..]);
  }

  /** While no position is lost and the robot stays on one group and map, all successes count from its first dock. */
  lemma PositionFromTheFirstDock(ws: seq<World>, es: seq<Event>, i: nat)
    requires Run(ws, es) && i < |ws|
    requires var h := ws[i].history;
      && !h.positionLost && h.trail != []
      && forall p :: p in h.trail ==> p.group == h.trail[0].group && p.map_ == h.trail[0].map_
    ensures
      var h := ws[i].history;
      && (forall p :: p in h.trail ==> p.command in h.reserved)
      && h.reserved[h.trail[0].command].context.dock.Some? && ws[i].keys.position.Some?
      && ReachedBy(
           h.reserved, h.trail, h.reserved[h.trail[0].command].context.dock.value, ws[i].keys.position.value.at)
  {
    DeadReckoning(ws, es, i);
    TravelledByDirection(ws[i].history.reserved, ws[i].history.trail);
  }

  /** A step that moves the position moves it by the distance of one success, in its direction, within its map. */
  lemma SuccessMovesInItsDirection(w: World, e: Event)
    requires Inv(w) && Enabled(w, e)
    requires Next(w, e).keys.position != w.keys.position && Next(w, e).keys.position.Some?
    ensures w.keys.active.Some? && w.keys.active.value in w.history.reserved
    ensures
      var v := w.history.reserved[w.keys.active.value];
      var from, to, a := v.record.origin, Next(w, e).keys.position.value.at, v.record.action;
      && (a.direction == North ==> to.y == from.y + a.distance && to.x == from.x)
      && (a.direction == South ==> to.y == from.y - a.distance && to.x == from.x)
      && (a.direction == East ==> to.x == from.x + a.distance && to.y == from.y)
      && (a.direction == West ==> to.x == from.x - a.distance && to.y == from.y)
      && v.context.size.Some?
      && 0.0 <= to.x && to.x <= v.context.size.value.x && 0.0 <= to.y && to.y <= v.context.size.value.y
  {
    PositionMovesWithOneSuccess(w, e);
  }
}
