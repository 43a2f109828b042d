/** One save of a map's layout: an optional boundary, optional zones and optional stations. */
module MapLayout {
  import opened Options
  import D = DockingStations
  import DT = DockingStationTable
  import Z = EnvironmentZones

  type MapId = nat
  type Cells = set<(int, int)>

  /** The dimensions of a map in cells; the stored numbers may be no finite ones. */
  datatype Size = Size(x: int, y: int) | NotFinite

  datatype Source = Dimensions | Custom | TeachMode

  /** A submitted boundary; `valid` is PostGIS's verdict on the topology of a submitted polygon. */
  datatype Boundary = Boundary(source: Source, geometry: Option<Cells>, valid: bool)

  /** PostGIS's verdict on one station polygon apart from its coverage. */
  datatype Verdict = Verdict(valid: bool, aligned: bool, protrusionAllowed: bool, snapped: Option<Cells>)

  datatype Stations = Stations(items: seq<D.Item>, verdicts: seq<Verdict>)

  datatype Layout = Layout(boundary: Option<Boundary>, zones: Option<seq<Z.Item>>, stations: Option<Stations>)

  datatype Error =
    | MapMissing
    | BadDimensions
    | GeometryMissing
    | BoundaryInvalid
    | BoundaryTooLarge
    | ZoneRejected(zone: Z.Error)
    | StationRejected(station: D.Error)
    | ZoneOutside
    | StationOutside

  function BoundaryOf(bs: Z.Boundaries, map_: MapId): Option<Cells> {
    if map_ in bs then Some(bs[map_]) else None
  }

  /** The placement query: coverage is about the snapped polygon if there is one. */
  function Inspect(bs: Z.Boundaries, map_: MapId, item: D.Item, v: Verdict): D.Inspection {
    var cells := if v.snapped.Some? then v.snapped.value else item.geometry;
    D.Inspection(
      map_ in bs, v.valid, map_ in bs && cells <= bs[map_], v.aligned, v.protrusionAllowed, v.snapped)
  }

  function Inspections(bs: Z.Boundaries, map_: MapId, s: Stations): (r: seq<D.Inspection>)
    requires |s.items| == |s.verdicts|
    ensures |r| == |s.items|
    ensures forall k :: 0 <= k < |r| ==> r[k] == Inspect(bs, map_, s.items[k], s.verdicts[k])
  {
    seq(|s.items|, k requires 0 <= k < |s.items| => Inspect(bs, map_, s.items[k], s.verdicts[k]))
  }

  // ---------------------------------------------------------------- the boundary of a request

  predicate Positive(size: Size) {
    size.Size? && size.x > 0 && size.y > 0
  }

  /** All cells of the map. */
  function Rectangle(size: Size): Cells
    requires Positive(size)
  {
    set i, j | 0 <= i < size.x && 0 <= j < size.y :: (i, j)
  }

  /** The full rectangle for DIMENSIONS, otherwise the submitted polygon. */
  function CellsOf(b: Boundary, size: Size): Option<Cells>
    requires Positive(size)
  {
    if b.source == Dimensions then Some(Rectangle(size)) else b.geometry
  }

  /** What is wrong with a boundary, in the service's order. */
  function BoundaryError(b: Boundary, size: Size): Option<Error> {
    if !Positive(size) then Some(BadDimensions)
    else if CellsOf(b, size).None? then Some(GeometryMissing)
    else if CellsOf(b, size).value == {} || !(b.valid || b.source == Dimensions) then Some(BoundaryInvalid)
    else if !(CellsOf(b, size).value <= Rectangle(size)) then Some(BoundaryTooLarge)
    else None
  }

  /** A boundary from the map's dimensions is refused only for the dimensions; a good one is within the map. */
  lemma DimensionsAlwaysFit(b: Boundary, size: Size)
    ensures b.source == Dimensions ==> (BoundaryError(b, size).None? <==> Positive(size))
    ensures
      BoundaryError(b, size).None? ==>
        && Positive(size) && CellsOf(b, size).Some? && CellsOf(b, size).value != {}
        && forall c :: c in CellsOf(b, size).value ==> 0 <= c.0 < size.x && 0 <= c.1 < size.y
  {
    if Positive(size) {
      assert (0, 0) in Rectangle(size);
    }
  }

  // ---------------------------------------------------------------- what a request asks for

  function NewBoundaries(bs: Z.Boundaries, map_: MapId, size: Size, layout: Layout): Z.Boundaries {
    if layout.boundary.Some? && BoundaryError(layout.boundary.value, size).None? then
      bs[map_ := CellsOf(layout.boundary.value, size).value]
    else
      bs
  }

  ghost predicate WellFormed(layout: Layout) {
    && (layout.zones.Some? ==> Z.WellFormed(layout.zones.value))
    && (layout.stations.Some? ==>
          && D.WellFormed(layout.stations.value.items)
          && |layout.stations.value.items| == |layout.stations.value.verdicts|)
  }

  ghost predicate Unused(
    layout: Layout, t: Z.Zones, rows: D.Table, zoneIds: seq<Z.ZoneId>, stationIds: seq<D.StationId>)
  {
    && (layout.zones.Some? ==> Z.Unused(zoneIds, t, layout.zones.value))
    && (layout.stations.Some? ==> D.Unused(stationIds, rows, layout.stations.value.items))
  }

  predicate BoundaryOk(size: Size, layout: Layout) {
    layout.boundary.Some? ==> BoundaryError(layout.boundary.value, size).None?
  }

  ghost predicate ZonesOk(t: Z.Zones, bs: Z.Boundaries, map_: MapId, layout: Layout) {
    layout.zones.Some? ==> Z.Acceptable(t, bs, map_, layout.zones.value)
  }

  ghost predicate StationsOk(
    rows: D.Table, bs: Z.Boundaries, map_: MapId, robots: map<D.RobotId, Option<MapId>>, layout: Layout)
    requires WellFormed(layout)
  {
    layout.stations.Some? ==>
      var s := layout.stations.value;
      D.Acceptable(rows, map_, s.items, Inspections(bs, map_, s), robots)
  }

  /** A stored zone that the request leaves as it is. */
  predicate Stays(layout: Layout, id: Z.ZoneId) {
    layout.zones.None? || (layout.zones.value != [] && !Z.Submitted(layout.zones.value, id))
  }

  /** The zones that stay fit into the boundary `bs` gives the map. */
  ghost predicate ZonesFit(t: Z.Zones, bs: Z.Boundaries, map_: MapId, layout: Layout) {
    forall i :: i in t && t[i].map_ == map_ && Stays(layout, i) ==> map_ in bs && t[i].cells <= bs[map_]
  }

  /** The stations the map will have lie inside, without the half unit of protrusion a save allows. */
  ghost predicate StationsFit(rows: D.Table, bs: Z.Boundaries, map_: MapId, layout: Layout)
    requires WellFormed(layout)
  {
    if layout.stations.None? then
      DT.StationsInside(rows, map_, BoundaryOf(bs, map_))
    else
      var inspections := Inspections(bs, map_, layout.stations.value);
      forall k :: 0 <= k < |inspections| ==> inspections[k].covered
  }

  /** The request is one the service accepts, in terms of the state before it. */
  ghost predicate Acceptable(
    t: Z.Zones, bs: Z.Boundaries, rows: D.Table, robots: map<D.RobotId, Option<MapId>>,
    map_: MapId, size: Size, layout: Layout)
    requires WellFormed(layout)
  {
    var bs' := NewBoundaries(bs, map_, size, layout);
    && BoundaryOk(size, layout) && ZonesOk(t, bs', map_, layout) && StationsOk(rows, bs', map_, robots, layout)
    && (layout.boundary.Some? ==> ZonesFit(t, bs', map_, layout) && StationsFit(rows, bs', map_, layout))
  }

  /** The error names the first step that fails. */
  ghost predicate Genuine(
    t: Z.Zones, bs: Z.Boundaries, rows: D.Table, robots: map<D.RobotId, Option<MapId>>,
    map_: MapId, size: Size, layout: Layout, e: Error)
    requires WellFormed(layout)
  {
    var bs' := NewBoundaries(bs, map_, size, layout);
    match e
    case MapMissing => false
    case BadDimensions => layout.boundary.Some? && BoundaryError(layout.boundary.value, size) == Some(e)
    case GeometryMissing => layout.boundary.Some? && BoundaryError(layout.boundary.value, size) == Some(e)
    case BoundaryInvalid => layout.boundary.Some? && BoundaryError(layout.boundary.value, size) == Some(e)
    case BoundaryTooLarge => layout.boundary.Some? && BoundaryError(layout.boundary.value, size) == Some(e)
    case ZoneRejected(z) =>
      BoundaryOk(size, layout) && layout.zones.Some? && Z.Genuine(t, bs', map_, layout.zones.value, z)
    case StationRejected(s) =>
      && BoundaryOk(size, layout) && ZonesOk(t, bs', map_, layout) && layout.stations.Some?
      && var r := layout.stations.value;
         DT.IsFirstError(rows, map_, r.items, Inspections(bs', map_, r), robots, s)
    case ZoneOutside =>
      && BoundaryOk(size, layout) && ZonesOk(t, bs', map_, layout) && StationsOk(rows, bs', map_, robots, layout)
      && layout.boundary.Some? && !ZonesFit(t, bs', map_, layout)
    case StationOutside =>
      && BoundaryOk(size, layout) && ZonesOk(t, bs', map_, layout) && StationsOk(rows, bs', map_, robots, layout)
      && layout.boundary.Some? && ZonesFit(t, bs', map_, layout) && !StationsFit(rows, bs', map_, layout)
  }

  // ---------------------------------------------------------------- what an accepted request leaves

  ghost predicate ZonesApplied(t: Z.Zones, t': Z.Zones, map_: MapId, layout: Layout, zoneIds: seq<Z.ZoneId>)
    requires layout.zones.Some? ==> |zoneIds| == |layout.zones.value|
  {
    if layout.zones.None? then t' == t
    else if layout.zones.value == [] then t' == map i | i in t && t[i].map_ != map_ :: t[i]
    else Z.IsSaved(t, t', map_, layout.zones.value, zoneIds)
  }

  ghost predicate StationsApplied(
    rows: D.Table, rows': D.Table, bs: Z.Boundaries, map_: MapId, layout: Layout, stationIds: seq<D.StationId>)
    requires WellFormed(layout)
    requires layout.stations.Some? ==> |stationIds| == |layout.stations.value.items|
  {
    if layout.stations.None? then rows' == rows
    else
      var s := layout.stations.value;
      D.IsSnapshot(rows, rows', map_, s.items, Inspections(bs, map_, s), stationIds)
  }

  /** The state an accepted request leaves behind. */
  ghost predicate Applied(
    t: Z.Zones, bs: Z.Boundaries, rows: D.Table, t': Z.Zones, bs': Z.Boundaries, rows': D.Table,
    map_: MapId, size: Size, layout: Layout, zoneIds: seq<Z.ZoneId>, stationIds: seq<D.StationId>)
    requires WellFormed(layout) && Unused(layout, t, rows, zoneIds, stationIds)
  {
    && bs' == NewBoundaries(bs, map_, size, layout)
    && ZonesApplied(t, t', map_, layout, zoneIds)
    && StationsApplied(rows, rows', bs', map_, layout, stationIds)
    && (layout.boundary.Some? ==> DT.StationsInside(rows', map_, BoundaryOf(bs', map_)))
  }

  /** The coverage query at the end decides exactly whether the zones that stay fit. */
  lemma CoverageIsAboutZonesThatStay(
    t: Z.Zones, t': Z.Zones, bs: Z.Boundaries, map_: MapId, layout: Layout, zoneIds: seq<Z.ZoneId>)
    requires layout.zones.Some? ==> Z.Unused(zoneIds, t, layout.zones.value)
    requires ZonesOk(t, bs, map_, layout) && ZonesApplied(t, t', map_, layout, zoneIds)
    ensures Z.CoveredOn(t', bs, map_) <==> ZonesFit(t, bs, map_, layout)
  {
    if layout.zones.Some? && layout.zones.value != [] {
      var items := layout.zones.value;
      forall i | Z.OnMap(t', map_, i) && !(Z.OnMap(t, map_, i) && !Z.Submitted(items, i))
        ensures map_ in bs && t'[i].cells <= bs[map_]
      {
        var k :| 0 <= k < |items| && !items[k].toDelete && Z.Names(items, zoneIds, k, i);
        assert Z.ShapeOk(bs, map_, items[k]);
      }
      forall i | i in t && t[i].map_ == map_ && Stays(layout, i) ensures i in t' && t'[i] == t[i] {
      }
    }
  }

  /** The coverage query at the end decides exactly whether the requested stations are fully inside. */
  lemma CoverageIsAboutRequestedStations(
    rows: D.Table, rows': D.Table, bs: Z.Boundaries, map_: MapId, robots: map<D.RobotId, Option<MapId>>,
    layout: Layout, stationIds: seq<D.StationId>)
    requires WellFormed(layout)
    requires layout.stations.Some? ==> D.Unused(stationIds, rows, layout.stations.value.items)
    requires StationsOk(rows, bs, map_, robots, layout) && StationsApplied(rows, rows', bs, map_, layout, stationIds)
    ensures DT.StationsInside(rows', map_, BoundaryOf(bs, map_)) <==> StationsFit(rows, bs, map_, layout)
  {
    if layout.stations.Some? {
      var s := layout.stations.value;
      var inspections := Inspections(bs, map_, s);
      forall k | 0 <= k < |s.items|
        ensures
          var id := D.IdOf(s.items, stationIds, k);
          && D.OnMap(rows', map_, id)
          && (inspections[k].covered <==> map_ in bs && rows'[id].geometry <= bs[map_])
      {
        assert D.ItemError(rows, map_, robots, k, s.items[k], inspections[k]).None?;
      }
      if StationsFit(rows, bs, map_, layout) {
        forall i | i in rows' && rows'[i].map_ == map_ ensures map_ in bs && rows'[i].geometry <= bs[map_] {
          assert D.OnMap(rows', map_, i);
          var k :| 0 <= k < |s.items| && D.IdOf(s.items, stationIds, k) == i;
          assert inspections[k].covered;
        }
      }
    }
  }

  // ---------------------------------------------------------------- a boundary on its own

  /** Replacing a boundary without looking at the zones keeps the layout exactly when every stored zone fits. */
  lemma BoundaryAloneKeepsLayout(t: Z.Zones, bs: Z.Boundaries, map_: MapId, cells: Cells)
    requires Z.LayoutOk(t, bs)
    ensures
      Z.LayoutOk(t, bs[map_ := cells]) <==> forall i :: i in t && t[i].map_ == map_ ==> t[i].cells <= cells
  {
    var bs' := bs[map_ := cells];
    if forall i :: i in t && t[i].map_ == map_ ==> t[i].cells <= cells {
      forall m ensures Z.CoveredOn(t, bs', m) {
        assert Z.CoveredOn(t, bs, m);
      }
    } else {
      assert !Z.CoveredOn(t, bs', map_);
    }
  }

  /** A zone in the corner, and a new boundary that leaves the corner out. */
  lemma BoundaryAloneCanUncoverAZone()
    ensures
      var t: Z.Zones := map[7 := Z.Zone(1, Z.Forbidden, {(0, 0)})];
      var bs: Z.Boundaries := map[1 := {(0, 0), (1, 0)}];
      Z.LayoutOk(t, bs) && !Z.LayoutOk(t, bs[1 := {(1, 0)}])
  {
    var t: Z.Zones := map[7 := Z.Zone(1, Z.Forbidden, {(0, 0)})];
    var bs: Z.Boundaries := map[1 := {(0, 0), (1, 0)}];
    BoundaryAloneKeepsLayout(t, bs, 1, {(1, 0)});
    assert (0, 0) in t[7].cells && (0, 0) !in {(1, 0)};
  }
}
