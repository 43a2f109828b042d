/** Which map each robot is on, and what the command context lookup finds for it. */
module Fleet {
  import opened Options
  import opened DockingStations
  import L = MapLayout

  type GroupId = nat

  datatype Robot = Robot(group: GroupId, map_: Option<MapId>, executing: bool)
  datatype MapRow = MapRow(group: GroupId, name: string, size: L.Size)

  type Robots = map<RobotId, Robot>
  type Maps = map<MapId, MapRow>

  /** The unique constraint on group and name. */
  ghost predicate UniqueNames(maps: Maps) {
    forall m, n :: m in maps && n in maps && m != n && maps[m].group == maps[n].group ==> maps[m].name != maps[n].name
  }

  /** A robot is only on a map of its own group. */
  ghost predicate RobotsPlaced(robots: Robots, maps: Maps) {
    forall r :: r in robots && robots[r].map_.Some? ==>
      robots[r].map_.value in maps && maps[robots[r].map_.value].group == robots[r].group
  }

  /** A station serves a robot that is on the station's map. */
  ghost predicate StationsServe(t: Table, robots: Robots) {
    forall i :: i in t && t[i].robot.Some? ==>
      t[i].robot.value in robots && robots[t[i].robot.value].map_ == Some(t[i].map_)
  }

  ghost predicate FleetOk(t: Table, robots: Robots, maps: Maps) {
    UniqueRobots(t) && RobotsPlaced(robots, maps) && StationsServe(t, robots)
  }

  function OfGroup(robots: Robots, group: GroupId): map<RobotId, Option<MapId>> {
    map r | r in robots && robots[r].group == group :: robots[r].map_
  }

  // ---------------------------------------------------------------- the command context

  /** The stations the two outer joins of the context query attach to the robot. */
  function ContextDocks(t: Table, robots: Robots, maps: Maps, robot: RobotId): set<StationId>
    requires robot in robots
  {
    set i | i in t && t[i].robot == Some(robot) && robots[robot].map_ == Some(t[i].map_)
      && t[i].map_ in maps && maps[t[i].map_].group == robots[robot].group
  }

  /** An outer join keeps the robot's row when no station matches. */
  function ContextRows(t: Table, robots: Robots, maps: Maps, robot: RobotId): nat
    requires robot in robots
  {
    var docks := |ContextDocks(t, robots, maps, robot)|;
    if docks == 0 then 1 else docks
  }

  lemma AtMostOne<T>(s: set<T>)
    requires forall a, b :: a in s && b in s ==> a == b
    ensures |s| <= 1
  {
    if s != {} {
      var a :| a in s;
      assert s == {a};
    }
  }

  /** The lookup yields exactly one row per robot, and never drops the robot's own station. */
  lemma ContextIsUnique(t: Table, robots: Robots, maps: Maps, robot: RobotId)
    requires FleetOk(t, robots, maps) && robot in robots
    ensures ContextRows(t, robots, maps, robot) == 1
    ensures forall i :: i in t && t[i].robot == Some(robot) ==> ContextDocks(t, robots, maps, robot) == {i}
  {
    var docks := ContextDocks(t, robots, maps, robot);
    AtMostOne(docks);
    forall i | i in t && t[i].robot == Some(robot) ensures docks == {i} {
      assert i in docks;
    }
  }

  // ---------------------------------------------------------------- a single assignment

  datatype AssignError =
    | NoSuchMap | NoSuchStation | StationOccupied | NoSuchRobot | RobotElsewhere | RobotAlreadyDocked

  function AssignmentError(
    rows: Table, robots: Robots, hasMap: bool, map_: MapId, station: StationId, robot: RobotId, group: GroupId)
    : Option<AssignError>
  {
    if !hasMap then Some(NoSuchMap)
    else if !OnMap(rows, map_, station) then Some(NoSuchStation)
    else if rows[station].robot.Some? then Some(StationOccupied)
    else if !(robot in robots && robots[robot].group == group) then Some(NoSuchRobot)
    else if robots[robot].map_ != Some(map_) then Some(RobotElsewhere)
    else if exists i :: i in rows && rows[i].robot == Some(robot) then Some(RobotAlreadyDocked)
    else None
  }

  // ---------------------------------------------------------------- what each operation does to the fleet

  /** A snapshot that the service accepts assigns only robots of its own map. */
  lemma SnapshotKeepsFleet(
    t: Table, t': Table, map_: MapId, items: seq<Item>, inspections: seq<Inspection>, newIds: seq<StationId>,
    robots: Robots, maps: Maps, group: GroupId)
    requires |items| == |inspections| == |newIds|
    requires FleetOk(t, robots, maps) && UniqueRobots(t')
    requires Acceptable(t, map_, items, inspections, OfGroup(robots, group))
    requires IsSnapshot(t, t', map_, items, inspections, newIds)
    ensures FleetOk(t', robots, maps)
  {
    forall i | i in t' && t'[i].robot.Some?
      ensures t'[i].robot.value in robots && robots[t'[i].robot.value].map_ == Some(t'[i].map_)
    {
      if t'[i].map_ == map_ {
        assert OnMap(t', map_, i);
        var k :| 0 <= k < |items| && IdOf(items, newIds, k) == i;
        assert ItemError(t, map_, OfGroup(robots, group), k, items[k], inspections[k]).None?;
      } else {
        assert i in OtherMaps(t', map_) && i in OtherMaps(t, map_);
        assert OtherMaps(t', map_)[i] == OtherMaps(t, map_)[i];
      }
    }
  }

  function WithoutRobot(t: Table, robot: RobotId): Table {
    map i | i in t && t[i].robot != Some(robot) :: t[i]
  }

  /** Deleting a robot takes its station with it, so no station is left serving nobody. */
  lemma DeletionKeepsFleet(t: Table, robots: Robots, maps: Maps, robot: RobotId)
    requires FleetOk(t, robots, maps)
    ensures FleetOk(WithoutRobot(t, robot), robots - {robot}, maps)
  {
  }

  function Placed(robots: Robots, ids: set<RobotId>, map_: MapId): Robots {
    map r | r in robots :: if r in ids then robots[r].(map_ := Some(map_)) else robots[r]
  }

  /** Putting unassigned robots on a new map disturbs no station, because they have none. */
  lemma NewMapKeepsFleet(
    t: Table, robots: Robots, maps: Maps, ids: set<RobotId>, map_: MapId, row: MapRow)
    requires FleetOk(t, robots, maps) && map_ !in maps
    requires forall r :: r in ids ==> r in robots && robots[r].group == row.group && robots[r].map_.None?
    ensures FleetOk(t, Placed(robots, ids, map_), maps[map_ := row])
  {
    var robots' := Placed(robots, ids, map_);
    forall i | i in t && t[i].robot.Some?
      ensures t[i].robot.value in robots' && robots'[t[i].robot.value].map_ == Some(t[i].map_)
    {
      assert t[i].robot.value !in ids;
    }
  }
}
