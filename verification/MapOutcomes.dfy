/**
 The answers and the effects of the map operations, case by case and field by field,
 in terms of the request and the stored rows alone.
 */
module MapOutcomes {
  import opened Options
  import opened Fleet
  import opened MapRuns
  import L = MapLayout
  import D = DockingStations
  import DT = DockingStationTable
  import Z = EnvironmentZones
  import ZA = EnvironmentZoneAnswers

  // ---------------------------------------------------------------- the boundary

  ghost predicate Sized(size: L.Size) {
    size.Size? && size.x > 0 && size.y > 0
  }

  ghost predicate InMap(size: L.Size, cells: L.Cells)
    requires size.Size?
  {
    forall c :: c in cells ==> 0 <= c.0 < size.x && 0 <= c.1 < size.y
  }

  /** What is refused, and with which error. */
  lemma BoundaryErrorSpelledOut(b: L.Boundary, size: L.Size)
    ensures
      var e := L.BoundaryError(b, size);
      && (e == Some(L.BadDimensions) <==> !Sized(size))
      && (e == Some(L.GeometryMissing) <==> Sized(size) && b.source != L.Dimensions && b.geometry.None?)
      && (e == Some(L.BoundaryInvalid) <==>
            && Sized(size) && b.source != L.Dimensions && b.geometry.Some?
            && (b.geometry.value == {} || !b.valid))
      && (e == Some(L.BoundaryTooLarge) <==>
            && Sized(size) && b.source != L.Dimensions && b.geometry.Some?
            && b.geometry.value != {} && b.valid && !InMap(size, b.geometry.value))
      && (e.None? <==>
            && Sized(size)
            && (b.source != L.Dimensions ==>
                  b.geometry.Some? && b.geometry.value != {} && b.valid && InMap(size, b.geometry.value)))
  {
    if Sized(size) {
      assert (0, 0) in L.Rectangle(size);
      if b.geometry.Some? {
        assert InMap(size, b.geometry.value) <==> b.geometry.value <= L.Rectangle(size);
      }
    }
  }

  /** Only this map's boundary changes, to the whole map or to the submitted polygon. */
  lemma NewBoundariesSpelledOut(bs: Z.Boundaries, map_: MapId, size: L.Size, layout: L.Layout)
    ensures
      var bs' := L.NewBoundaries(bs, map_, size, layout);
      && (forall m :: m != map_ ==> (m in bs' <==> m in bs))
      && (forall m :: m != map_ && m in bs ==> bs'[m] == bs[m])
      && (layout.boundary.None? || L.BoundaryError(layout.boundary.value, size).Some? ==> bs' == bs)
      && (layout.boundary.Some? && L.BoundaryError(layout.boundary.value, size).None? ==>
            && map_ in bs' && Sized(size)
            && (layout.boundary.value.source == L.Dimensions ==>
                  forall i, j :: (i, j) in bs'[map_] <==> 0 <= i < size.x && 0 <= j < size.y)
            && (layout.boundary.value.source != L.Dimensions ==> Some(bs'[map_]) == layout.boundary.value.geometry))
  {
    if layout.boundary.Some? {
      BoundaryErrorSpelledOut(layout.boundary.value, size);
    }
  }

  // ---------------------------------------------------------------- a layout

  /** The polygon that is measured, and stored, for a station. */
  function Footprint(item: D.Item, v: L.Verdict): L.Cells {
    match v.snapped
    case Some(cells) => cells
    case None => item.geometry
  }

  /** The verdicts are passed on; coverage is measured against the boundary stored at that moment. */
  lemma InspectionSpelledOut(bs: Z.Boundaries, map_: MapId, item: D.Item, v: L.Verdict)
    ensures
      var i := L.Inspect(bs, map_, item, v);
      && (i.boundaryExists <==> map_ in bs)
      && (i.covered <==> map_ in bs && forall c :: c in Footprint(item, v) ==> c in bs[map_])
      && (i.valid <==> v.valid) && (i.aligned <==> v.aligned) && (i.protrusionAllowed <==> v.protrusionAllowed)
      && i.snapped == v.snapped
  {
  }

  /** No section of the request concerns this zone. */
  ghost predicate Untouched(layout: L.Layout, id: Z.ZoneId) {
    match layout.zones
    case None => true
    case Some(items) => items != [] && forall k :: 0 <= k < |items| ==> items[k].id != Some(id)
  }

  ghost predicate LiesIn(cells: L.Cells, bs: Z.Boundaries, map_: MapId) {
    map_ in bs && forall c :: c in cells ==> c in bs[map_]
  }

  /** Some zone that the request leaves alone is cut by the map's boundary. */
  ghost predicate ZoneCut(t: Z.Zones, bs: Z.Boundaries, map_: MapId, layout: L.Layout) {
    exists i :: i in t && t[i].map_ == map_ && Untouched(layout, i) && !LiesIn(t[i].cells, bs, map_)
  }

  /** Some station the map will have is cut by the map's boundary. */
  ghost predicate StationCut(rows: D.Table, bs: Z.Boundaries, map_: MapId, layout: L.Layout)
    requires L.WellFormed(layout)
  {
    match layout.stations
    case None => exists i :: i in rows && rows[i].map_ == map_ && !LiesIn(rows[i].geometry, bs, map_)
    case Some(s) => exists k :: 0 <= k < |s.items| && !LiesIn(Footprint(s.items[k], s.verdicts[k]), bs, map_)
  }

  lemma StaysIsUntouched(layout: L.Layout, id: Z.ZoneId)
    ensures L.Stays(layout, id) <==> Untouched(layout, id)
  {
  }

  lemma ZonesFitSpelledOut(t: Z.Zones, bs: Z.Boundaries, map_: MapId, layout: L.Layout)
    ensures L.ZonesFit(t, bs, map_, layout) <==> !ZoneCut(t, bs, map_, layout)
  {
    forall i ensures L.Stays(layout, i) <==> Untouched(layout, i) {
      StaysIsUntouched(layout, i);
    }
    hide L.Stays;
    hide Untouched;
  }

  lemma StationsFitSpelledOut(rows: D.Table, bs: Z.Boundaries, map_: MapId, layout: L.Layout)
    requires L.WellFormed(layout) && (layout.stations.None? ==> map_ in bs)
    ensures L.StationsFit(rows, bs, map_, layout) <==> !StationCut(rows, bs, map_, layout)
  {
    if layout.stations.Some? {
      var s := layout.stations.value;
      forall k | 0 <= k < |s.items|
        ensures L.Inspections(bs, map_, s)[k].covered <==> LiesIn(Footprint(s.items[k], s.verdicts[k]), bs, map_)
      {
        InspectionSpelledOut(bs, map_, s.items[k], s.verdicts[k]);
      }
    }
  }

  /**
   A layout is accepted exactly when each section it has is accepted against the new
   boundary, and a new boundary cuts neither a zone that is left alone nor a station
   that the map will have.
   */
  lemma LayoutAcceptedExactlyWhen(
    t: Z.Zones, bs: Z.Boundaries, rows: D.Table, robots: map<D.RobotId, Option<MapId>>,
    map_: MapId, size: L.Size, layout: L.Layout)
    requires L.WellFormed(layout)
    ensures
      var bs' := L.NewBoundaries(bs, map_, size, layout);
      L.Acceptable(t, bs, rows, robots, map_, size, layout) <==>
      && (layout.boundary.Some? ==> L.BoundaryError(layout.boundary.value, size).None?)
      && (layout.zones.Some? ==> Z.Acceptable(t, bs', map_, layout.zones.value))
      && (layout.stations.Some? ==>
            var s := layout.stations.value;
            D.Acceptable(rows, map_, s.items, L.Inspections(bs', map_, s), robots))
      && (layout.boundary.Some? ==> !ZoneCut(t, bs', map_, layout) && !StationCut(rows, bs', map_, layout))
  {
    if layout.boundary.Some? && L.BoundaryError(layout.boundary.value, size).None? {
      var bs' := L.NewBoundaries(bs, map_, size, layout);
      ZonesFitSpelledOut(t, bs', map_, layout);
      StationsFitSpelledOut(rows, bs', map_, layout);
    }
    hide L.ZonesFit;
    hide L.StationsFit;
    hide L.BoundaryError;
    hide Z.Acceptable;
    hide D.Acceptable;
    hide ZoneCut;
    hide StationCut;
  }

  /** What the error of a refused layout says of the request and the state before it. */
  ghost predicate Justified(
    t: Z.Zones, bs: Z.Boundaries, rows: D.Table, robots: map<D.RobotId, Option<MapId>>,
    map_: MapId, size: L.Size, layout: L.Layout, e: L.Error)
    requires L.WellFormed(layout)
  {
    var bs' := L.NewBoundaries(bs, map_, size, layout);
    var zonesPass := layout.zones.Some? ==> Z.Acceptable(t, bs', map_, layout.zones.value);
    var stationsPass :=
      layout.stations.Some? ==>
        var s := layout.stations.value;
        D.Acceptable(rows, map_, s.items, L.Inspections(bs', map_, s), robots);
    if e in {L.BadDimensions, L.GeometryMissing, L.BoundaryInvalid, L.BoundaryTooLarge} then
      layout.boundary.Some? && L.BoundaryError(layout.boundary.value, size) == Some(e)
    else
      && (layout.boundary.Some? ==> L.BoundaryError(layout.boundary.value, size).None?)
      && match e
         case ZoneRejected(z) => layout.zones.Some? && !zonesPass && ZA.Justified(t, bs', map_, layout.zones.value, z)
         case StationRejected(s) =>
           && zonesPass && layout.stations.Some? && !stationsPass
           && var r := layout.stations.value;
              DT.Justified(rows, map_, r.items, L.Inspections(bs', map_, r), robots, s)
         case ZoneOutside => zonesPass && stationsPass && layout.boundary.Some? && ZoneCut(t, bs', map_, layout)
         case StationOutside =>
           && zonesPass && stationsPass && layout.boundary.Some?
           && !ZoneCut(t, bs', map_, layout) && StationCut(rows, bs', map_, layout)
         case _ => false
  }

  lemma LayoutErrorSpelledOut(
    t: Z.Zones, bs: Z.Boundaries, rows: D.Table, robots: map<D.RobotId, Option<MapId>>,
    map_: MapId, size: L.Size, layout: L.Layout, e: L.Error)
    requires L.WellFormed(layout) && L.Genuine(t, bs, rows, robots, map_, size, layout, e)
    ensures Justified(t, bs, rows, robots, map_, size, layout, e)
  {
    var bs' := L.NewBoundaries(bs, map_, size, layout);
    match e
    case ZoneRejected(z) =>
      ZA.ErrorSpelledOut(t, bs', map_, layout.zones.value, z);
      ZA.AcceptedHasNoFault(t, bs', map_, layout.zones.value, z);
    case StationRejected(s) =>
      var r := layout.stations.value;
      var inspections := L.Inspections(bs', map_, r);
      DT.ErrorSpelledOut(rows, map_, r.items, inspections, robots, s);
      FaultyStationIsRefused(rows, map_, r.items, inspections, robots, s);
    case ZoneOutside => ZonesFitSpelledOut(t, bs', map_, layout);
    case StationOutside =>
      ZonesFitSpelledOut(t, bs', map_, layout);
      StationsFitSpelledOut(rows, bs', map_, layout);
    case _ =>
  }

  lemma FaultyStationIsRefused(
    rows: D.Table, map_: MapId, items: seq<D.Item>, inspections: seq<D.Inspection>,
    robots: map<D.RobotId, Option<MapId>>, e: D.Error)
    requires |inspections| == |items| && DT.Justified(rows, map_, items, inspections, robots, e)
    ensures !D.Acceptable(rows, map_, items, inspections, robots)
  {
    if D.Acceptable(rows, map_, items, inspections, robots) {
      D.AcceptableSpelledOut(rows, map_, items, inspections, robots);
    }
  }

  /** What an accepted layout leaves of the sections it does not have, and of the other maps. */
  lemma LayoutSparesTheRest(s: State, e: Event, s': State)
    requires e.SaveLayout? && Step(s, e, s')
    ensures e.map_ in s.maps && s.maps[e.map_].group == e.group
    ensures s'.robots == s.robots && s'.maps == s.maps
    ensures e.layout.boundary.None? ==> s'.boundaries == s.boundaries
    ensures e.layout.zones.None? ==> s'.zones == s.zones
    ensures e.layout.stations.None? ==> s'.stations == s.stations
    ensures forall m :: m in s.boundaries && m != e.map_ ==> m in s'.boundaries && s'.boundaries[m] == s.boundaries[m]
    ensures forall i :: i in s.zones && s.zones[i].map_ != e.map_ ==> i in s'.zones && s'.zones[i] == s.zones[i]
    ensures
      forall i :: i in s.stations && s.stations[i].map_ != e.map_ ==>
        i in s'.stations && s'.stations[i] == s.stations[i]
    ensures e.layout.zones == Some([]) ==> forall i :: i in s'.zones ==> s'.zones[i].map_ != e.map_
  {
    if e.layout.stations.Some? {
      var r := e.layout.stations.value;
      D.SnapshotSpelledOut(
        s.stations, s'.stations, e.map_, r.items, L.Inspections(s'.boundaries, e.map_, r), e.stationIds);
    }
  }

  /** The zones and the stations of an accepted layout are stored as they were asked for. */
  lemma LayoutStoresTheRequest(s: State, e: Event, s': State)
    requires e.SaveLayout? && Step(s, e, s')
    ensures
      e.layout.zones.Some? ==>
        forall k :: 0 <= k < |e.layout.zones.value| && !e.layout.zones.value[k].toDelete ==>
          var item := e.layout.zones.value[k];
          var id := if item.id.Some? then item.id.value else e.zoneIds[k];
          && id in s'.zones && s'.zones[id].map_ == e.map_
          && s'.zones[id].kind == item.kind && s'.zones[id].cells == item.cells
    ensures
      e.layout.stations.Some? ==>
        var r := e.layout.stations.value;
        forall k :: 0 <= k < |r.items| ==>
          var item := r.items[k];
          var id := if item.id.Some? then item.id.value else e.stationIds[k];
          && id in s'.stations && s'.stations[id].map_ == e.map_
          && s'.stations[id].robot == item.robot && s'.stations[id].geometry == Footprint(item, r.verdicts[k])
          && s'.stations[id].heading == (match item.heading case Some(h) => h case None => D.South)
  {
    if e.layout.zones.Some? && e.layout.zones.value != [] {
      ZA.SavedSpelledOut(s.zones, s'.zones, e.map_, e.layout.zones.value, e.zoneIds);
    }
    if e.layout.stations.Some? {
      StationsStored(s, e, s');
    }
  }

  lemma StationsStored(s: State, e: Event, s': State)
    requires e.SaveLayout? && Step(s, e, s') && e.layout.stations.Some?
    ensures
      var r := e.layout.stations.value;
      forall k :: 0 <= k < |r.items| ==>
        var item := r.items[k];
        var id := if item.id.Some? then item.id.value else e.stationIds[k];
        && id in s'.stations && s'.stations[id].map_ == e.map_
        && s'.stations[id].robot == item.robot && s'.stations[id].geometry == Footprint(item, r.verdicts[k])
        && s'.stations[id].heading == (match item.heading case Some(h) => h case None => D.South)
  {
    var r := e.layout.stations.value;
    var inspections := L.Inspections(s'.boundaries, e.map_, r);
    D.SnapshotSpelledOut(s.stations, s'.stations, e.map_, r.items, inspections, e.stationIds);
    hide Step;
    hide D.IsSnapshot;
    forall k | 0 <= k < |r.items|
      ensures inspections[k].snapped == r.verdicts[k].snapped
      ensures D.StoredAs(s'.stations, e.map_, r.items, inspections, e.stationIds, k, D.IdOf(r.items, e.stationIds, k))
    {
      InspectionSpelledOut(s'.boundaries, e.map_, r.items[k], r.verdicts[k]);
    }
  }

  // ---------------------------------------------------------------- maps and robots

  /** The robots of the group, each with the map it is on. */
  lemma OfGroupSpelledOut(robots: Robots, group: GroupId, robot: D.RobotId)
    ensures robot in OfGroup(robots, group) <==> robot in robots && robots[robot].group == group
    ensures robot in OfGroup(robots, group) ==> OfGroup(robots, group)[robot] == robots[robot].map_
  {
  }

  /** Every answer of an assignment, in the order of the tests. */
  lemma AssignmentErrorSpelledOut(
    rows: D.Table, robots: Robots, hasMap: bool, map_: MapId, station: D.StationId, robot: D.RobotId, group: GroupId)
    ensures
      var e := AssignmentError(rows, robots, hasMap, map_, station, robot, group);
      var found := hasMap && station in rows && rows[station].map_ == map_;
      var free := found && rows[station].robot == None;
      var known := free && robot in robots && robots[robot].group == group;
      var here := known && robots[robot].map_ == Some(map_);
      var docked := exists i :: i in rows && rows[i].robot == Some(robot);
      && (e == Some(NoSuchMap) <==> !hasMap)
      && (e == Some(NoSuchStation) <==> hasMap && !found)
      && (e == Some(StationOccupied) <==> found && !free)
      && (e == Some(NoSuchRobot) <==> free && !known)
      && (e == Some(RobotElsewhere) <==> known && !here)
      && (e == Some(RobotAlreadyDocked) <==> here && docked)
      && (e.None? <==> here && !docked)
  {
  }

  /** An assignment gives a station of the map that served no robot a robot of the map that had no station. */
  lemma AssignmentSpelledOut(s: State, e: Event, s': State)
    requires e.AssignRobot?
    ensures
      Step(s, e, s') <==>
      && e.map_ in s.maps && s.maps[e.map_].group == e.group
      && e.station in s.stations && s.stations[e.station].map_ == e.map_ && s.stations[e.station].robot == None
      && e.robot in s.robots && s.robots[e.robot].group == e.group && s.robots[e.robot].map_ == Some(e.map_)
      && (forall i :: i in s.stations ==> s.stations[i].robot != Some(e.robot))
      && s'.stations.Keys == s.stations.Keys
      && (forall i :: i in s.stations && i != e.station ==> s'.stations[i] == s.stations[i])
      && s'.stations[e.station].robot == Some(e.robot) && s'.stations[e.station].map_ == e.map_
      && s'.stations[e.station].heading == s.stations[e.station].heading
      && s'.stations[e.station].geometry == s.stations[e.station].geometry
      && s'.zones == s.zones && s'.boundaries == s.boundaries && s'.robots == s.robots && s'.maps == s.maps
  {
    AssignmentErrorSpelledOut(
      s.stations, s.robots, HasMap(s, e.map_, e.group), e.map_, e.station, e.robot, e.group);
    if e.station in s.stations && e.station in s'.stations {
      assert
        s'.stations == s.stations[e.station := s.stations[e.station].(robot := Some(e.robot))] <==>
        && s'.stations.Keys == s.stations.Keys
        && (forall i :: i in s.stations && i != e.station ==> s'.stations[i] == s.stations[i])
        && s'.stations[e.station] == s.stations[e.station].(robot := Some(e.robot));
    }
  }

  /** The new map has its row; exactly the named robots, which were on no map, are put on it. */
  lemma MapCreationSpelledOut(s: State, e: Event, s': State)
    requires e.CreateMap? && Step(s, e, s')
    ensures e.newMap !in s.maps && s'.maps.Keys == s.maps.Keys + {e.newMap} && s'.maps[e.newMap] == e.row
    ensures forall m :: m in s.maps ==> s'.maps[m] == s.maps[m]
    ensures forall m :: m in s.maps && s.maps[m].group == e.row.group ==> s.maps[m].name != e.row.name
    ensures s'.robots.Keys == s.robots.Keys
    ensures
      forall r :: r in e.placed ==>
        && r in s.robots && s.robots[r].group == e.row.group && s.robots[r].map_ == None
        && s'.robots[r].map_ == Some(e.newMap)
        && s'.robots[r].group == s.robots[r].group && s'.robots[r].executing == s.robots[r].executing
    ensures forall r :: r in s.robots && r !in e.placed ==> s'.robots[r] == s.robots[r]
    ensures s'.zones == s.zones && s'.boundaries == s.boundaries && s'.stations == s.stations
  {
  }

  /** Only the name of this map changes, to one that no other map of the group has. */
  lemma MapUpdateSpelledOut(s: State, e: Event, s': State)
    requires e.UpdateMap? && Step(s, e, s')
    ensures e.map_ in s.maps && s.maps[e.map_].group == e.group && s'.maps.Keys == s.maps.Keys
    ensures forall m :: m in s.maps && m != e.map_ ==> s'.maps[m] == s.maps[m]
    ensures forall m :: m in s.maps && m != e.map_ && s.maps[m].group == e.group ==> s.maps[m].name != e.name
    ensures
      && s'.maps[e.map_].name == e.name && s'.maps[e.map_].group == e.group
      && s'.maps[e.map_].size == s.maps[e.map_].size
    ensures
      && s'.zones == s.zones && s'.boundaries == s.boundaries && s'.stations == s.stations
      && s'.robots == s.robots
  {
  }

  /** A robot comes into the group on no map and idle, or changes only its execution flag. */
  lemma RobotUpdateSpelledOut(s: State, e: Event, s': State)
    requires (e.CreateBot? || e.SetExecuting?) && Step(s, e, s')
    ensures
      && s'.zones == s.zones && s'.boundaries == s.boundaries && s'.stations == s.stations
      && s'.maps == s.maps
    ensures forall r :: r in s.robots && r != e.robot ==> r in s'.robots && s'.robots[r] == s.robots[r]
    ensures s'.robots.Keys == s.robots.Keys + {e.robot}
    ensures
      e.CreateBot? ==>
        && e.robot !in s.robots && s'.robots[e.robot].group == e.group
        && s'.robots[e.robot].map_ == None && !s'.robots[e.robot].executing
    ensures
      e.SetExecuting? ==>
        && e.robot in s.robots && s'.robots[e.robot].group == s.robots[e.robot].group
        && s'.robots[e.robot].map_ == s.robots[e.robot].map_ && s'.robots[e.robot].executing == e.executing
  {
  }

  /** A robot that is not executing goes, and with it exactly the stations that serve it. */
  lemma DeletionSpelledOut(s: State, e: Event, s': State)
    requires e.DeleteBot? && Step(s, e, s')
    ensures e.robot in s.robots && !s.robots[e.robot].executing
    ensures s'.robots.Keys == s.robots.Keys - {e.robot}
    ensures forall r :: r in s'.robots ==> s'.robots[r] == s.robots[r]
    ensures forall i :: i in s'.stations <==> i in s.stations && s.stations[i].robot != Some(e.robot)
    ensures forall i :: i in s'.stations ==> s'.stations[i] == s.stations[i]
    ensures s'.zones == s.zones && s'.boundaries == s.boundaries && s'.maps == s.maps
  {
  }

  /** The stations the context query finds are exactly those that serve the robot on its map and in its group. */
  lemma ContextSpelledOut(s: State, robot: D.RobotId, i: D.StationId)
    requires robot in s.robots
    ensures
      i in ContextDocks(s.stations, s.robots, s.maps, robot) <==>
      && i in s.stations && s.stations[i].robot == Some(robot) && s.robots[robot].map_ == Some(s.stations[i].map_)
      && s.stations[i].map_ in s.maps && s.maps[s.stations[i].map_].group == s.robots[robot].group
  {
  }
}
