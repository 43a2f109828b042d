/**
 The operations that touch maps, robots, stations and zones together.  Each one is
 a transaction: it runs its statements one by one and puts everything back when a
 step fails.
 */
module MapService {
  import opened Options
  import opened Fleet
  import L = MapLayout
  import D = DockingStations
  import DT = DockingStationTable
  import DS = DockingStationService
  import Z = EnvironmentZones
  import ZT = EnvironmentZoneTable
  import ZS = EnvironmentZoneService
  import R = MapRuns

  type MapId = nat

  datatype MapError = NoMap | NameTaken | TagsMissing | RobotsMissing | RobotAlreadyAssigned

  type TagId = nat

  datatype BotError = NoSuchBot | BotExecuting

  predicate HasName(maps: Maps, group: GroupId, name: string) {
    exists m :: m in maps && maps[m].group == group && maps[m].name == name
  }

  class MapService {
    const zoneService: ZS.EnvironmentZoneService
    const stationService: DS.DockingStationService
    var maps: Maps
    var robots: Robots

    ghost function View(): R.State
      reads this, zoneService.table, stationService.table
    {
      R.State(
        zoneService.table.zones, zoneService.table.boundaries, stationService.table.rows, robots, maps)
    }

    /** What every operation keeps: the layout of every map and the fleet. */
    ghost predicate Valid()
      reads this, zoneService.table, stationService.table
    {
      R.Inv(View())
    }

    constructor ()
      ensures Valid() && fresh(zoneService.table) && fresh(stationService.table)
      ensures maps == map[] && robots == map[]
    {
      var zones := new ZT.ZoneTable();
      var stations := new DT.StationTable();
      zoneService := new ZS.EnvironmentZoneService(zones);
      stationService := new DS.DockingStationService(stations);
      maps, robots := map[], map[];
    }

    predicate HasMap(map_: MapId, group: GroupId)
      reads this
    {
      map_ in maps && maps[map_].group == group
    }

    // -------------------------------------------------------------- layout

    /** `save_boundary_in_transaction`: dimensions, geometry and verdicts first, then the upsert. */
    method SaveBoundary(map_: MapId, boundary: L.Boundary) returns (error: Option<L.Error>)
      requires map_ in maps
      modifies zoneService.table`boundaries
      ensures error == L.BoundaryError(boundary, maps[map_].size)
      ensures
        zoneService.table.boundaries ==
        L.NewBoundaries(
          old(zoneService.table.boundaries), map_, maps[map_].size, L.Layout(Some(boundary), None, None))
    {
      var size := maps[map_].size;
      if size.NotFinite? || !(size.x > 0 && size.y > 0) {
        return Some(L.BadDimensions);
      }
      var geometry := boundary.geometry;
      if boundary.source == L.Dimensions {
        geometry := Some(L.Rectangle(size));
      }
      if geometry.None? {
        return Some(L.GeometryMissing);
      }
      if geometry.value == {} || !(boundary.valid || boundary.source == L.Dimensions) {
        return Some(L.BoundaryInvalid);
      }
      if !(geometry.value <= L.Rectangle(size)) {
        return Some(L.BoundaryTooLarge);
      }
      var table := zoneService.table;
      table.boundaries := table.boundaries[map_ := geometry.value];
      return None;
    }

    method SaveZones(map_: MapId, layout: L.Layout, zoneIds: seq<Z.ZoneId>) returns (error: Option<L.Error>)
      requires L.WellFormed(layout)
      requires layout.zones.Some? ==> Z.Unused(zoneIds, zoneService.table.zones, layout.zones.value)
      requires Z.Disjoint(zoneService.table.zones)
      modifies zoneService.table`zones
      ensures
        var t, t', bs := old(zoneService.table.zones), zoneService.table.zones, zoneService.table.boundaries;
        && (error.None? <==> L.ZonesOk(t, bs, map_, layout))
        && (error.None? ==>
              && L.ZonesApplied(t, t', map_, layout, zoneIds)
              && Z.Disjoint(t')
              && forall m :: Z.CoveredOn(t, bs, m) ==> Z.CoveredOn(t', bs, m))
        && (error.Some? ==>
              && t' == t && layout.zones.Some? && error.value.ZoneRejected?
              && Z.Genuine(t, bs, map_, layout.zones.value, error.value.zone))
    {
      if layout.zones.None? {
        return None;
      }
      var rejected := zoneService.SaveZones(map_, layout.zones.value, zoneIds);
      return if rejected.Some? then Some(L.ZoneRejected(rejected.value)) else None;
    }

    method SaveStations(map_: MapId, group: GroupId, layout: L.Layout, stationIds: seq<D.StationId>)
      returns (error: Option<L.Error>)
      requires L.WellFormed(layout)
      requires
        layout.stations.Some? ==> D.Unused(stationIds, stationService.table.rows, layout.stations.value.items)
      requires FleetOk(stationService.table.rows, robots, maps)
      modifies stationService.table
      ensures
        var rows, rows', bs := old(stationService.table.rows), stationService.table.rows, zoneService.table.boundaries;
        && (error.None? <==> L.StationsOk(rows, bs, map_, OfGroup(robots, group), layout))
        && (error.None? ==>
              L.StationsApplied(rows, rows', bs, map_, layout, stationIds) && FleetOk(rows', robots, maps))
        && (error.Some? ==>
              && rows' == rows && layout.stations.Some? && error.value.StationRejected?
              && var s := layout.stations.value;
                 DT.IsFirstError(
                   rows, map_, s.items, L.Inspections(bs, map_, s), OfGroup(robots, group), error.value.station))
    {
      if layout.stations.None? {
        return None;
      }
      var s := layout.stations.value;
      var rows := stationService.table.rows;
      var inspections := L.Inspections(zoneService.table.boundaries, map_, s);
      var result := stationService.SaveStations(map_, s.items, inspections, OfGroup(robots, group), stationIds);
      if result.Rejected? {
        return Some(L.StationRejected(result.error));
      }
      SnapshotKeepsFleet(
        rows, stationService.table.rows, map_, s.items, inspections, stationIds, robots, maps, group);
      return None;
    }

    /** The two coverage queries that close a save with a boundary. */
    method CheckInside(map_: MapId) returns (error: Option<L.Error>)
      ensures
        var bs := zoneService.table.boundaries;
        error ==
        if !Z.CoveredOn(zoneService.table.zones, bs, map_) then Some(L.ZoneOutside)
        else if !DT.StationsInside(stationService.table.rows, map_, L.BoundaryOf(bs, map_)) then Some(L.StationOutside)
        else None
    {
      var outside := zoneService.table.HasOutsideBoundary(map_);
      if outside {
        return Some(L.ZoneOutside);
      }
      if !DT.StationsInside(stationService.table.rows, map_, L.BoundaryOf(zoneService.table.boundaries, map_)) {
        return Some(L.StationOutside);
      }
      return None;
    }

    method Restore(zones: Z.Zones, boundaries: Z.Boundaries, rows: D.Table)
      modifies zoneService.table, stationService.table
      ensures zoneService.table.zones == zones && zoneService.table.boundaries == boundaries
      ensures stationService.table.rows == rows
    {
      var z, s := zoneService.table, stationService.table;
      z.zones, z.boundaries, s.rows := zones, boundaries, rows;
    }

    /** The sections of a layout, written one after the other; a failure leaves the earlier ones written. */
    method WriteSections(
      map_: MapId, group: GroupId, layout: L.Layout, zoneIds: seq<Z.ZoneId>, stationIds: seq<D.StationId>)
      returns (error: Option<L.Error>)
      requires Valid() && L.WellFormed(layout) && map_ in maps
      requires L.Unused(layout, zoneService.table.zones, stationService.table.rows, zoneIds, stationIds)
      modifies zoneService.table, stationService.table
      ensures error.None? ==> Valid()
      ensures
        var t, bs := old(zoneService.table.zones), old(zoneService.table.boundaries);
        var rows := old(stationService.table.rows);
        var t', bs', rows' := zoneService.table.zones, zoneService.table.boundaries, stationService.table.rows;
        && (error.None? <==> L.Acceptable(t, bs, rows, OfGroup(robots, group), map_, maps[map_].size, layout))
        && (error.None? ==> L.Applied(t, bs, rows, t', bs', rows', map_, maps[map_].size, layout, zoneIds, stationIds))
        && (error.Some? ==> L.Genuine(t, bs, rows, OfGroup(robots, group), map_, maps[map_].size, layout, error.value))
    {
      hide Z.Disjoint;
      hide FleetOk;
      hide L.BoundaryError;
      hide L.ZonesOk;
      hide L.StationsOk;
      hide L.ZonesApplied;
      hide L.StationsApplied;
      hide L.ZonesFit;
      hide L.StationsFit;
      hide DT.StationsInside;
      ghost var t, bs, rows := zoneService.table.zones, zoneService.table.boundaries, stationService.table.rows;
      error := WriteBoundary(map_, layout);
      if error.Some? {
        return;
      }
      ghost var bs' := zoneService.table.boundaries;
      OtherMapsStayCovered(t, bs, bs', map_);
      hide L.NewBoundaries;
      error := WriteContents(map_, group, layout, zoneIds, stationIds);
      if error.Some? {
        return;
      }
      L.CoverageIsAboutZonesThatStay(t, zoneService.table.zones, bs', map_, layout, zoneIds);
      L.CoverageIsAboutRequestedStations(
        rows, stationService.table.rows, bs', map_, OfGroup(robots, group), layout, stationIds);
      if layout.boundary.Some? {
        error := CheckInside(map_);
      }
    }

    /** The zones and the stations, against the boundary stored now. */
    method WriteContents(
      map_: MapId, group: GroupId, layout: L.Layout, zoneIds: seq<Z.ZoneId>, stationIds: seq<D.StationId>)
      returns (error: Option<L.Error>)
      requires L.WellFormed(layout)
      requires L.Unused(layout, zoneService.table.zones, stationService.table.rows, zoneIds, stationIds)
      requires Z.Disjoint(zoneService.table.zones) && FleetOk(stationService.table.rows, robots, maps)
      modifies zoneService.table`zones, stationService.table
      ensures
        var t, bs, rows := old(zoneService.table.zones), zoneService.table.boundaries, old(stationService.table.rows);
        var t', rows' := zoneService.table.zones, stationService.table.rows;
        && (error.None? <==>
              L.ZonesOk(t, bs, map_, layout) && L.StationsOk(rows, bs, map_, OfGroup(robots, group), layout))
        && (error.None? ==>
              && L.ZonesApplied(t, t', map_, layout, zoneIds)
              && L.StationsApplied(rows, rows', bs, map_, layout, stationIds)
              && Z.Disjoint(t') && FleetOk(rows', robots, maps)
              && forall m :: Z.CoveredOn(t, bs, m) ==> Z.CoveredOn(t', bs, m))
        && (error.Some? ==> error.value.ZoneRejected? || error.value.StationRejected?)
        && (error.Some? && error.value.ZoneRejected? ==>
              layout.zones.Some? && Z.Genuine(t, bs, map_, layout.zones.value, error.value.zone))
        && (error.Some? && error.value.StationRejected? ==>
              && L.ZonesOk(t, bs, map_, layout) && layout.stations.Some?
              && var s := layout.stations.value;
                 DT.IsFirstError(
                   rows, map_, s.items, L.Inspections(bs, map_, s), OfGroup(robots, group), error.value.station))
    {
      hide Z.Disjoint;
      hide FleetOk;
      hide L.ZonesOk;
      hide L.StationsOk;
      hide L.ZonesApplied;
      hide L.StationsApplied;
      hide Z.CoveredOn;
      error := SaveZones(map_, layout, zoneIds);
      if error.None? {
        error := SaveStations(map_, group, layout, stationIds);
      }
    }

    /** The boundary section, if there is one. */
    method WriteBoundary(map_: MapId, layout: L.Layout) returns (error: Option<L.Error>)
      requires map_ in maps
      modifies zoneService.table`boundaries
      ensures error.None? <==> L.BoundaryOk(maps[map_].size, layout)
      ensures
        error.Some? ==>
          && layout.boundary.Some? && error == L.BoundaryError(layout.boundary.value, maps[map_].size)
          && error.value in {L.BadDimensions, L.GeometryMissing, L.BoundaryInvalid, L.BoundaryTooLarge}
      ensures
        zoneService.table.boundaries ==
        L.NewBoundaries(old(zoneService.table.boundaries), map_, maps[map_].size, layout)
      ensures layout.boundary.None? ==> zoneService.table.boundaries == old(zoneService.table.boundaries)
    {
      error := None;
      if layout.boundary.Some? {
        error := SaveBoundary(map_, layout.boundary.value);
      }
    }

    /**
     `save_layout`.  The sections are written one after the other against the new
     boundary, and the two final queries decide the same thing as a look at the
     request and the state before it.  A failure at any step puts everything back.
     */
    method SaveLayout(
      map_: MapId, group: GroupId, layout: L.Layout, zoneIds: seq<Z.ZoneId>, stationIds: seq<D.StationId>)
      returns (error: Option<L.Error>)
      requires Valid() && L.WellFormed(layout)
      requires L.Unused(layout, zoneService.table.zones, stationService.table.rows, zoneIds, stationIds)
      modifies zoneService.table, stationService.table
      ensures Valid()
      ensures
        var t, bs := old(zoneService.table.zones), old(zoneService.table.boundaries);
        var rows := old(stationService.table.rows);
        var t', bs', rows' := zoneService.table.zones, zoneService.table.boundaries, stationService.table.rows;
        && (error.None? <==>
              HasMap(map_, group) &&
              L.Acceptable(t, bs, rows, OfGroup(robots, group), map_, maps[map_].size, layout))
        && (error.None? ==>
              L.Applied(t, bs, rows, t', bs', rows', map_, maps[map_].size, layout, zoneIds, stationIds))
        && (error.Some? ==> t' == t && bs' == bs && rows' == rows)
        && (error.None? ==>
              R.Step(old(View()), R.SaveLayout(map_, group, layout, zoneIds, stationIds), View()))
        && (error == Some(L.MapMissing) <==> !HasMap(map_, group))
        && (error.Some? && HasMap(map_, group) ==>
              L.Genuine(t, bs, rows, OfGroup(robots, group), map_, maps[map_].size, layout, error.value))
    {
      if !HasMap(map_, group) {
        return Some(L.MapMissing);
      }
      hide L.Applied;
      hide L.Acceptable;
      var t, bs, rows := zoneService.table.zones, zoneService.table.boundaries, stationService.table.rows;
      error := WriteSections(map_, group, layout, zoneIds, stationIds);
      if error.Some? {
        Restore(t, bs, rows);
      }
    }

    // -------------------------------------------------------------- maps and robots

    /** `create_map` with the robots it puts on the new map; `tags` are those of the group. */
    method CreateMap(
      group: GroupId, name: string, size: L.Size, tagIds: seq<TagId>, tags: set<TagId>, robotIds: seq<D.RobotId>,
      newMap: MapId)
      returns (error: Option<MapError>)
      requires Valid() && newMap !in maps
      requires forall k, l :: 0 <= k < l < |robotIds| ==> robotIds[k] != robotIds[l]
      requires forall k, l :: 0 <= k < l < |tagIds| ==> tagIds[k] != tagIds[l]
      modifies this
      ensures Valid()
      ensures
        var missing := exists r :: r in robotIds && !(r in old(robots) && old(robots)[r].group == group);
        error ==
        if HasName(old(maps), group, name) then Some(NameTaken)
        else if exists t :: t in tagIds && t !in tags then Some(TagsMissing)
        else if missing then Some(RobotsMissing)
        else if exists r :: r in robotIds && r in old(robots) && old(robots)[r].map_.Some? then
          Some(RobotAlreadyAssigned)
        else None
      ensures
        R.Step(
          old(View()),
          if error.Some? then R.Refused else R.CreateMap(newMap, MapRow(group, name, size), set r | r in robotIds),
          View())
    {
      hide FleetOk;
      hide Z.LayoutOk;
      if HasName(maps, group, name) {
        return Some(NameTaken);
      }
      var foundTags := set t | t in tagIds && t in tags;
      CountFound(tagIds, foundTags);
      if |foundTags| != |tagIds| {
        return Some(TagsMissing);
      }
      var found := set r | r in robotIds && r in robots && robots[r].group == group;
      CountFound(robotIds, found);
      if |found| != |robotIds| {
        return Some(RobotsMissing);
      }
      if exists r :: r in found && robots[r].map_.Some? {
        return Some(RobotAlreadyAssigned);
      }
      assert found == set r | r in robotIds;
      Link(group, name, size, found, newMap);
      return None;
    }

    /** The new map's row and its robots, once everything has been checked. */
    method Link(group: GroupId, name: string, size: L.Size, found: set<D.RobotId>, newMap: MapId)
      requires Valid() && newMap !in maps && !HasName(maps, group, name)
      requires forall r :: r in found ==> r in robots && robots[r].group == group && robots[r].map_.None?
      modifies this
      ensures Valid()
      ensures R.Step(old(View()), R.CreateMap(newMap, MapRow(group, name, size), found), View())
    {
      NewMapKeepsFleet(stationService.table.rows, robots, maps, found, newMap, MapRow(group, name, size));
      maps := maps[newMap := MapRow(group, name, size)];
      robots := map r | r in robots :: if r in found then robots[r].(map_ := Some(newMap)) else robots[r];
    }

    /** `update_map`: a map of the group gets a name that no other map of the group has. */
    method UpdateMap(map_: MapId, group: GroupId, name: string) returns (error: Option<MapError>)
      requires Valid()
      modifies this`maps
      ensures Valid()
      ensures error in {None, Some(NoMap), Some(NameTaken)}
      ensures error == Some(NoMap) <==> !(map_ in old(maps) && old(maps)[map_].group == group)
      ensures
        error == Some(NameTaken) ==>
          exists m :: m in old(maps) && m != map_ && old(maps)[m].group == group && old(maps)[m].name == name
      ensures R.Step(old(View()), if error.Some? then R.Refused else R.UpdateMap(map_, group, name), View())
    {
      if !HasMap(map_, group) {
        return Some(NoMap);
      }
      if maps[map_].name != name && HasName(maps, group, name) {
        return Some(NameTaken);
      }
      maps := maps[map_ := maps[map_].(name := name)];
      return None;
    }

    /** `create_bot`: a new robot is on no map. */
    method CreateBot(group: GroupId, id: D.RobotId)
      requires Valid() && id !in robots
      modifies this`robots
      ensures Valid()
      ensures R.Step(old(View()), R.CreateBot(id, group), View())
    {
      robots := robots[id := Robot(group, None, false)];
    }

    /** The status stream moves a robot in and out of execution; nothing else about it changes. */
    method SetExecuting(id: D.RobotId, executing: bool)
      requires Valid() && id in robots
      modifies this`robots
      ensures Valid()
      ensures R.Step(old(View()), R.SetExecuting(id, executing), View())
    {
      robots := robots[id := robots[id].(executing := executing)];
    }

    /** `delete_bot`; the foreign key takes the robot's station along. */
    method DeleteBot(id: D.RobotId, group: GroupId) returns (error: Option<BotError>)
      requires Valid()
      modifies this`robots, stationService.table
      ensures Valid()
      ensures
        error ==
        if !(id in old(robots) && old(robots)[id].group == group) then Some(NoSuchBot)
        else if old(robots)[id].executing then Some(BotExecuting) else None
      ensures R.Step(old(View()), if error.Some? then R.Refused else R.DeleteBot(id), View())
    {
      if !(id in robots && robots[id].group == group) {
        return Some(NoSuchBot);
      }
      if robots[id].executing {
        return Some(BotExecuting);
      }
      var table := stationService.table;
      DeletionKeepsFleet(table.rows, robots, maps, id);
      robots := robots - {id};
      table.rows := map i | i in table.rows && table.rows[i].robot != Some(id) :: table.rows[i];
      return None;
    }

    /** `assign_robot_to_station`.  The unique constraint has nothing left to refuse. */
    method AssignRobot(map_: MapId, station: D.StationId, robot: D.RobotId, group: GroupId)
      returns (error: Option<AssignError>)
      requires Valid()
      modifies stationService.table
      ensures Valid()
      ensures
        var rows := old(stationService.table.rows);
        && error == AssignmentError(rows, robots, HasMap(map_, group), map_, station, robot, group)
        && R.Step(
             old(View()), if error.Some? then R.Refused else R.AssignRobot(map_, station, robot, group), View())
      ensures
        var rows, rows' := old(stationService.table.rows), stationService.table.rows;
        && (error.Some? ==> rows' == rows)
        && (error.None? ==>
              && station in rows && rows[station].robot == None && rows[station].map_ == map_
              && rows' == rows[station := rows[station].(robot := Some(robot))])
    {
      var table := stationService.table;
      if !HasMap(map_, group) {
        return Some(NoSuchMap);
      }
      if !D.OnMap(table.rows, map_, station) {
        return Some(NoSuchStation);
      }
      if table.rows[station].robot.Some? {
        return Some(StationOccupied);
      }
      if !(robot in robots && robots[robot].group == group) {
        return Some(NoSuchRobot);
      }
      if robots[robot].map_ != Some(map_) {
        return Some(RobotElsewhere);
      }
      if exists i :: i in table.rows && i != station && table.rows[i].robot == Some(robot) {
        return Some(RobotAlreadyDocked);
      }
      var conflict := table.WriteRow(station, table.rows[station].(robot := Some(robot)));
      if conflict {
        assert false;
      }
      return None;
    }

    /** `get_context`: the robot's row with its map and its dock; more than one row would be an error. */
    method Context(robot: D.RobotId) returns (dock: Option<D.StationId>)
      requires Valid() && robot in robots
      ensures dock.None? <==>
        forall i :: i in stationService.table.rows ==> stationService.table.rows[i].robot != Some(robot)
      ensures
        dock.Some? ==>
          var rows := stationService.table.rows;
          && dock.value in rows && rows[dock.value].robot == Some(robot)
          && robots[robot].map_ == Some(rows[dock.value].map_)
          && HasMap(rows[dock.value].map_, robots[robot].group)
    {
      var docks := ContextDocks(stationService.table.rows, robots, maps, robot);
      ContextIsUnique(stationService.table.rows, robots, maps, robot);
      if docks == {} {
        return None;
      }
      var i :| i in docks;
      return Some(i);
    }
  }

  /** Giving one map a boundary leaves the coverage of the others alone. */
  lemma OtherMapsStayCovered(t: Z.Zones, bs: Z.Boundaries, bs': Z.Boundaries, map_: MapId)
    requires Z.LayoutOk(t, bs) && forall m :: m != map_ ==> (m in bs <==> m in bs') && (m in bs ==> bs'[m] == bs[m])
    ensures forall m :: m != map_ ==> Z.CoveredOn(t, bs', m)
  {
    forall m | m != map_ ensures Z.CoveredOn(t, bs', m) {
      assert Z.CoveredOn(t, bs, m);
    }
  }

  /** Of distinct ids, as many rows as ids come back exactly when every id has a row. */
  lemma {:induction false} CountFound(ids: seq<D.RobotId>, found: set<D.RobotId>)
    requires forall k, l :: 0 <= k < l < |ids| ==> ids[k] != ids[l]
    requires forall r :: r in found ==> r in ids
    ensures |found| == |ids| <==> forall r :: r in ids ==> r in found
    ensures |found| <= |ids|
  {
    if ids == [] {
      assert found == {};
    } else {
      var rest, last := ids[..|ids| - 1], ids[|ids| - 1];
      assert ids == rest + [last];
      assert last !in rest;
      CountFound(rest, found - {last});
      if last in found {
        assert found == (found - {last}) + {last};
      } else {
        assert found == found - {last};
      }
    }
  }
}
