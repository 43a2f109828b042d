/**
 Runs of the operations on maps, robots, stations and zones.  A step is described by
 what the request asked for and what the operation promises to leave, and the
 layout and the fleet are shown to survive every sequence of steps.
 */
module MapRuns {
  import opened Options
  import opened Fleet
  import L = MapLayout
  import D = DockingStations
  import DT = DockingStationTable
  import Z = EnvironmentZones

  type MapId = nat

  datatype State = State(
    zones: Z.Zones, boundaries: Z.Boundaries, stations: D.Table, robots: Robots, maps: Maps)

  datatype Event =
    | SaveLayout(
        map_: MapId, group: GroupId, layout: L.Layout, zoneIds: seq<Z.ZoneId>, stationIds: seq<D.StationId>)
    | CreateMap(newMap: MapId, row: MapRow, placed: set<D.RobotId>)
    | UpdateMap(map_: MapId, group: GroupId, name: string)
    | CreateBot(robot: D.RobotId, group: GroupId)
    | SetExecuting(robot: D.RobotId, executing: bool)
    | DeleteBot(robot: D.RobotId)
    | AssignRobot(map_: MapId, station: D.StationId, robot: D.RobotId, group: GroupId)
    | Refused

  predicate HasMap(s: State, map_: MapId, group: GroupId) {
    map_ in s.maps && s.maps[map_].group == group
  }

  /** The operation accepts the request and leaves `s'`. */
  ghost predicate Step(s: State, e: Event, s': State) {
    match e
    case SaveLayout(m, g, layout, zoneIds, stationIds) =>
      && HasMap(s, m, g) && L.WellFormed(layout)
      && L.Unused(layout, s.zones, s.stations, zoneIds, stationIds)
      && L.Acceptable(s.zones, s.boundaries, s.stations, OfGroup(s.robots, g), m, s.maps[m].size, layout)
      && L.Applied(
           s.zones, s.boundaries, s.stations, s'.zones, s'.boundaries, s'.stations,
           m, s.maps[m].size, layout, zoneIds, stationIds)
      && s'.robots == s.robots && s'.maps == s.maps
    case CreateMap(m, row, placed) =>
      && m !in s.maps && (forall n :: n in s.maps && s.maps[n].group == row.group ==> s.maps[n].name != row.name)
      && (forall r :: r in placed ==>
            r in s.robots && s.robots[r].group == row.group && s.robots[r].map_.None?)
      && s' == s.(maps := s.maps[m := row], robots := Placed(s.robots, placed, m))
    case UpdateMap(m, g, name) =>
      && HasMap(s, m, g)
      && (forall n :: n in s.maps && n != m && s.maps[n].group == g ==> s.maps[n].name != name)
      && s' == s.(maps := s.maps[m := s.maps[m].(name := name)])
    case CreateBot(r, g) => r !in s.robots && s' == s.(robots := s.robots[r := Robot(g, None, false)])
    case SetExecuting(r, executing) =>
      r in s.robots && s' == s.(robots := s.robots[r := s.robots[r].(executing := executing)])
    case DeleteBot(r) =>
      && r in s.robots && !s.robots[r].executing
      && s' == s.(robots := s.robots - {r}, stations := WithoutRobot(s.stations, r))
    case AssignRobot(m, i, r, g) =>
      && AssignmentError(s.stations, s.robots, HasMap(s, m, g), m, i, r, g).None?
      && s' == s.(stations := s.stations[i := s.stations[i].(robot := Some(r))])
    case Refused => s' == s
  }

  ghost predicate Inv(s: State) {
    && Z.LayoutOk(s.zones, s.boundaries)
    && FleetOk(s.stations, s.robots, s.maps)
    && UniqueNames(s.maps)
  }

  ghost predicate IsRun(states: seq<State>, events: seq<Event>) {
    && |states| == |events| + 1
    && forall k :: 0 <= k < |events| ==> Step(states[k], events[k], states[k + 1])
  }

  // ---------------------------------------------------------------- one step

  /** Where a stored zone of a map comes from after a save. */
  lemma SavedZone(
    t: Z.Zones, t': Z.Zones, bs: Z.Boundaries, map_: MapId, items: seq<Z.Item>, newIds: seq<Z.ZoneId>, i: Z.ZoneId)
    returns (k: nat)
    requires Z.WellFormed(items) && Z.Unused(newIds, t, items) && Z.IsSaved(t, t', map_, items, newIds)
    requires Z.OnMap(t', map_, i)
    ensures
      || (Z.OnMap(t, map_, i) && !Z.Submitted(items, i) && t'[i] == t[i] && k == |items|)
      || (k < |items| && !items[k].toDelete && Z.Names(items, newIds, k, i) && t'[i] == Z.ZoneOf(map_, items[k]))
  {
    if Z.OnMap(t, map_, i) && !Z.Submitted(items, i) {
      k := |items|;
    } else {
      k :| 0 <= k < |items| && !items[k].toDelete && Z.Names(items, newIds, k, i);
    }
  }

  /** The description of a save is enough to keep the zones of every map apart. */
  lemma SavedStaysDisjoint(
    t: Z.Zones, t': Z.Zones, bs: Z.Boundaries, map_: MapId, items: seq<Z.Item>, newIds: seq<Z.ZoneId>)
    requires Z.WellFormed(items) && Z.Unused(newIds, t, items) && Z.IsSaved(t, t', map_, items, newIds)
    requires Z.Disjoint(t) && Z.Acceptable(t, bs, map_, items)
    ensures Z.Disjoint(t')
  {
    forall i, j | i in t' && j in t' && i != j && t'[i].map_ == t'[j].map_
      ensures !Z.Overlap(t'[i].cells, t'[j].cells)
    {
      if t'[i].map_ == map_ {
        var k := SavedZone(t, t', bs, map_, items, newIds, i);
        var l := SavedZone(t, t', bs, map_, items, newIds, j);
        if k < |items| && l == |items| {
          assert !Z.HitsStored(t, map_, items, items[k].cells);
        } else if k == |items| && l < |items| {
          assert !Z.HitsStored(t, map_, items, items[l].cells);
          Z.OverlapIsSymmetric(t'[i].cells, t'[j].cells);
        }
      }
    }
  }

  lemma LayoutStepKeepsDisjoint(s: State, e: Event, s': State)
    requires e.SaveLayout? && Step(s, e, s') && Z.LayoutOk(s.zones, s.boundaries)
    ensures Z.Disjoint(s'.zones)
  {
    if e.layout.zones.Some? && e.layout.zones.value != [] {
      SavedStaysDisjoint(s.zones, s'.zones, s'.boundaries, e.map_, e.layout.zones.value, e.zoneIds);
    }
  }

  /** A map that is not the one saved keeps its zones and its boundary. */
  lemma LayoutStepSparesOtherMaps(s: State, e: Event, s': State, m: MapId)
    requires e.SaveLayout? && Step(s, e, s') && m != e.map_ && Z.CoveredOn(s.zones, s.boundaries, m)
    ensures Z.CoveredOn(s'.zones, s'.boundaries, m)
  {
  }

  lemma LayoutStepKeepsCovered(s: State, e: Event, s': State)
    requires e.SaveLayout? && Step(s, e, s') && Z.CoveredOn(s.zones, s.boundaries, e.map_)
    ensures Z.CoveredOn(s'.zones, s'.boundaries, e.map_)
  {
    L.CoverageIsAboutZonesThatStay(s.zones, s'.zones, s'.boundaries, e.map_, e.layout, e.zoneIds);
  }

  lemma LayoutStepKeepsLayout(s: State, e: Event, s': State)
    requires e.SaveLayout? && Step(s, e, s') && Z.LayoutOk(s.zones, s.boundaries)
    ensures Z.LayoutOk(s'.zones, s'.boundaries)
  {
    LayoutStepKeepsDisjoint(s, e, s');
    hide Step;
    hide Z.CoveredOn;
    hide Z.Disjoint;
    forall m: MapId ensures Z.CoveredOn(s'.zones, s'.boundaries, m) {
      assert Z.CoveredOn(s.zones, s.boundaries, m);
      if m == e.map_ {
        LayoutStepKeepsCovered(s, e, s');
      } else {
        LayoutStepSparesOtherMaps(s, e, s', m);
      }
    }
  }

  /** The description of a station save is enough for the unique constraint. */
  lemma SnapshotStaysUnique(
    t: D.Table, t': D.Table, map_: MapId, items: seq<D.Item>, inspections: seq<D.Inspection>,
    newIds: seq<D.StationId>, robots: map<D.RobotId, Option<MapId>>)
    requires |items| == |inspections| == |newIds| && D.WellFormed(items) && D.UniqueRobots(t)
    requires D.Acceptable(t, map_, items, inspections, robots)
    requires D.IsSnapshot(t, t', map_, items, inspections, newIds)
    ensures D.UniqueRobots(t')
  {
    forall i, j | i in t' && j in t' && i != j && t'[i].robot.Some? && t'[i].map_ == map_
      ensures t'[i].robot != t'[j].robot
    {
      assert D.OnMap(t', map_, i);
      var k :| 0 <= k < |items| && D.IdOf(items, newIds, k) == i;
      assert D.ItemError(t, map_, robots, k, items[k], inspections[k]).None?;
      if t'[j].map_ == map_ {
        assert D.OnMap(t', map_, j);
        var l :| 0 <= l < |items| && D.IdOf(items, newIds, l) == j;
      } else {
        KeptElsewhere(t, t', map_, j);
      }
    }
    forall i, j | i in t' && j in t' && i != j && t'[i].robot.Some? && t'[i].map_ != map_
      ensures t'[i].robot != t'[j].robot
    {
      KeptElsewhere(t, t', map_, i);
      if t'[j].map_ == map_ {
        assert D.OnMap(t', map_, j);
        var l :| 0 <= l < |items| && D.IdOf(items, newIds, l) == j;
        assert D.ItemError(t, map_, robots, l, items[l], inspections[l]).None?;
      } else {
        KeptElsewhere(t, t', map_, j);
      }
    }
  }

  lemma KeptElsewhere(t: D.Table, t': D.Table, map_: MapId, i: D.StationId)
    requires D.OtherMaps(t', map_) == D.OtherMaps(t, map_) && i in t' && t'[i].map_ != map_
    ensures i in t && t[i] == t'[i]
  {
    assert i in D.OtherMaps(t', map_) && i in D.OtherMaps(t, map_);
    assert D.OtherMaps(t', map_)[i] == t'[i] && D.OtherMaps(t, map_)[i] == t[i];
  }

  lemma LayoutStepKeepsFleet(s: State, e: Event, s': State)
    requires e.SaveLayout? && Step(s, e, s') && FleetOk(s.stations, s.robots, s.maps)
    ensures FleetOk(s'.stations, s'.robots, s'.maps)
  {
    if e.layout.stations.Some? {
      var r := e.layout.stations.value;
      var inspections := L.Inspections(s'.boundaries, e.map_, r);
      SnapshotStaysUnique(
        s.stations, s'.stations, e.map_, r.items, inspections, e.stationIds, OfGroup(s.robots, e.group));
      SnapshotKeepsFleet(
        s.stations, s'.stations, e.map_, r.items, inspections, e.stationIds, s.robots, s.maps, e.group);
    }
  }

  lemma AssignmentKeepsFleet(s: State, e: Event, s': State)
    requires e.AssignRobot? && Step(s, e, s') && FleetOk(s.stations, s.robots, s.maps)
    ensures FleetOk(s'.stations, s'.robots, s'.maps)
  {
  }

  lemma StepKeepsInv(s: State, e: Event, s': State)
    requires Inv(s) && Step(s, e, s')
    ensures Inv(s')
  {
    if e.SaveLayout? {
      LayoutStepKeepsLayout(s, e, s');
      LayoutStepKeepsFleet(s, e, s');
    } else if e.CreateMap? {
      NewMapKeepsFleet(s.stations, s.robots, s.maps, e.placed, e.newMap, e.row);
    } else if e.DeleteBot? {
      DeletionKeepsFleet(s.stations, s.robots, s.maps, e.robot);
    } else if e.AssignRobot? {
      AssignmentKeepsFleet(s, e, s');
    }
  }

  // ---------------------------------------------------------------- every run

  lemma {:induction false} RunKeepsInv(states: seq<State>, events: seq<Event>, k: nat)
    requires IsRun(states, events) && Inv(states[0]) && k < |states|
    ensures Inv(states[k])
  {
    hide Inv;
    hide Step;
    if k > 0 {
      RunKeepsInv(states, events, k - 1);
      StepKeepsInv(states[k - 1], events[k - 1], states[k]);
    }
  }

  /**
   In every run that starts without maps and robots, zones of one map never overlap
   and lie within its boundary, and a map with a zone has a boundary.
   */
  lemma LayoutHoldsThroughout(states: seq<State>, events: seq<Event>, k: nat)
    requires IsRun(states, events) && k < |states|
    requires states[0] == State(map[], map[], map[], map[], map[])
    ensures Z.LayoutOk(states[k].zones, states[k].boundaries)
    ensures
      var t, bs := states[k].zones, states[k].boundaries;
      && (forall i :: i in t ==> t[i].map_ in bs && forall c :: c in t[i].cells ==> c in bs[t[i].map_])
      && (forall i, j :: i in t && j in t && i != j && t[i].map_ == t[j].map_ ==> t[i].cells * t[j].cells == {})
  {
    RunKeepsInv(states, events, k);
    var t, bs := states[k].zones, states[k].boundaries;
    hide IsRun;
    forall i | i in t ensures t[i].map_ in bs && t[i].cells <= bs[t[i].map_] {
      assert Z.CoveredOn(t, bs, t[i].map_);
    }
    forall i, j | i in t && j in t && i != j && t[i].map_ == t[j].map_ ensures t[i].cells * t[j].cells == {} {
      assert !Z.Overlap(t[i].cells, t[j].cells);
    }
  }

  /**
   In every such run a robot is only on a map of its own group, every station's robot
   exists, and no two maps of a group have the same name.
   */
  lemma FleetHoldsThroughout(states: seq<State>, events: seq<Event>, k: nat)
    requires IsRun(states, events) && k < |states|
    requires states[0] == State(map[], map[], map[], map[], map[])
    ensures
      var robots, maps, t := states[k].robots, states[k].maps, states[k].stations;
      && (forall r :: r in robots && robots[r].map_.Some? ==>
            robots[r].map_.value in maps && maps[robots[r].map_.value].group == robots[r].group)
      && (forall i :: i in t && t[i].robot.Some? ==> t[i].robot.value in robots)
      && (forall m, n :: m in maps && n in maps && m != n && maps[m].group == maps[n].group ==>
            maps[m].name != maps[n].name)
  {
    RunKeepsInv(states, events, k);
  }

  /** In every such run a robot has at most one station, on the robot's own map, and its command context is one row. */
  lemma ContextHoldsThroughout(states: seq<State>, events: seq<Event>, k: nat, robot: D.RobotId)
    requires IsRun(states, events) && k < |states|
    requires states[0] == State(map[], map[], map[], map[], map[]) && robot in states[k].robots
    ensures ContextRows(states[k].stations, states[k].robots, states[k].maps, robot) == 1
    ensures
      var t := states[k].stations;
      && (forall i :: i in t && t[i].robot == Some(robot) ==> states[k].robots[robot].map_ == Some(t[i].map_))
      && (forall i, j :: i in t && j in t && t[i].robot == Some(robot) == t[j].robot ==> i == j)
  {
    RunKeepsInv(states, events, k);
    ContextIsUnique(states[k].stations, states[k].robots, states[k].maps, robot);
  }
}
