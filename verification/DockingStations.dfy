/**
 Saving the docking stations of a map as one snapshot.  The table enforces the
 unique robot constraint at every single row it writes; the database picks the
 order of the rows.
 */
module DockingStations {
  import opened Options

  type StationId = nat
  type RobotId = nat
  type MapId = nat
  /** A polygon as the set of grid cells it covers. */
  type Geometry = set<(int, int)>

  datatype Heading = North | South | East | West

  datatype Station = Station(map_: MapId, robot: Option<RobotId>, heading: Heading, geometry: Geometry)

  type Table = map<StationId, Station>

  datatype Item = Item(id: Option<StationId>, robot: Option<RobotId>, heading: Option<Heading>, geometry: Geometry)

  /** What PostGIS reports about one submitted polygon. */
  datatype Inspection = Inspection(
    boundaryExists: bool, valid: bool, covered: bool, aligned: bool, protrusionAllowed: bool,
    snapped: Option<Geometry>)

  datatype Error =
    | StaleEdit(index: nat)
    | BoundaryMissing
    | BadGeometry(index: nat)
    | RobotMissing(index: nat)
    | RobotOnOtherMap(index: nat)
    | RobotTaken(index: nat)
    | RobotConflict

  datatype Info = Info(id: StationId, station: Station)

  datatype Result = Saved(stations: seq<Info>) | Rejected(error: Error)

  // ---------------------------------------------------------------- the constraint and the batch

  /** The unique constraint on the robot column; NULLs do not conflict. */
  ghost predicate UniqueRobots(t: Table) {
    forall i, j :: i in t && j in t && i != j && t[i].robot.Some? ==> t[i].robot != t[j].robot
  }

  /**
   What deleting the dropped stations and releasing the changed assignments has
   established before the first row is written.
   */
  ghost predicate Prepared(t: Table, writes: Table) {
    && UniqueRobots(t)
    && UniqueRobots(writes)
    && (forall i, w :: i in t && i !in writes && w in writes && t[i].robot.Some? ==> t[i].robot != writes[w].robot)
    && (forall i :: i in t && i in writes ==> t[i].robot.None? || t[i].robot == writes[i].robot)
  }

  function Part(writes: Table, ids: set<StationId>): Table {
    map i | i in writes && i in ids :: writes[i]
  }

  /** Whatever part of the batch has been written, no two stations share a robot. */
  lemma EveryPartIsUnique(t: Table, writes: Table, ids: set<StationId>)
    requires Prepared(t, writes)
    ensures UniqueRobots(t + Part(writes, ids))
  {
  }

  function WriteInOrder(t: Table, writes: Table, order: seq<StationId>): Table
    requires forall i :: i in order ==> i in writes
  {
    if order == [] then t
    else
      var last := order[|order| - 1];
      WriteInOrder(t, writes, order[..|order| - 1])[last := writes[last]]
  }

  lemma OneMorePart(t: Table, writes: Table, ids: set<StationId>, id: StationId)
    requires id in writes
    ensures (t + Part(writes, ids))[id := writes[id]] == t + Part(writes, ids + {id})
  {
  }

  function Listed(order: seq<StationId>): set<StationId> {
    set i | i in order
  }

  lemma {:induction false} WrittenSoFar(t: Table, writes: Table, order: seq<StationId>)
    requires forall i :: i in order ==> i in writes
    ensures WriteInOrder(t, writes, order) == t + Part(writes, Listed(order))
  {
    if order == [] {
      assert Part(writes, Listed(order)) == map[];
    } else {
      var before, last := order[..|order| - 1], order[|order| - 1];
      assert order == before + [last];
      assert Listed(order) == Listed(before) + {last};
      WrittenSoFar(t, writes, before);
      OneMorePart(t, writes, Listed(before), last);
      hide Part;
    }
  }

  /** Every order of the rows passes through tables that satisfy the constraint, swaps and cycles included. */
  lemma EveryOrderIsUniqueThroughout(t: Table, writes: Table, order: seq<StationId>, n: nat)
    requires Prepared(t, writes) && n <= |order| && forall i :: i in order ==> i in writes
    ensures UniqueRobots(WriteInOrder(t, writes, order[..n]))
  {
    WrittenSoFar(t, writes, order[..n]);
    EveryPartIsUnique(t, writes, Listed(order[..n]));
  }

  // ---------------------------------------------------------------- validation

  function Requested(map_: MapId, item: Item, inspection: Inspection): Station {
    Station(
      map_, item.robot, if item.heading.Some? then item.heading.value else South,
      if inspection.snapped.Some? then inspection.snapped.value else item.geometry)
  }

  predicate PlacedWell(i: Inspection) {
    i.valid && i.aligned && (i.covered || i.protrusionAllowed)
  }

  predicate TakenElsewhere(t: Table, map_: MapId, robot: RobotId) {
    exists i :: i in t && t[i].map_ != map_ && t[i].robot == Some(robot)
  }

  /** `robots` are the rows of the caller's group with the map each robot is on. */
  function ItemError(
    t: Table, map_: MapId, robots: map<RobotId, Option<MapId>>, index: nat, item: Item, i: Inspection): Option<Error>
  {
    if !i.boundaryExists then Some(BoundaryMissing)
    else if !PlacedWell(i) then Some(BadGeometry(index))
    else if item.robot.None? then None
    else if item.robot.value !in robots then Some(RobotMissing(index))
    else if robots[item.robot.value] != Some(map_) then Some(RobotOnOtherMap(index))
    else if TakenElsewhere(t, map_, item.robot.value) then Some(RobotTaken(index))
    else None
  }

  predicate OnMap(t: Table, map_: MapId, id: StationId) {
    id in t && t[id].map_ == map_
  }

  /** The request is one the service accepts. */
  ghost predicate Acceptable(
    t: Table, map_: MapId, items: seq<Item>, inspections: seq<Inspection>, robots: map<RobotId, Option<MapId>>)
    requires |inspections| == |items|
  {
    forall k :: 0 <= k < |items| ==>
      && (items[k].id.Some? ==> OnMap(t, map_, items[k].id.value))
      && ItemError(t, map_, robots, k, items[k], inspections[k]).None?
  }

  /** The uniqueness the request schema checks before the service runs. */
  ghost predicate WellFormed(items: seq<Item>) {
    forall k, l :: 0 <= k < l < |items| ==>
      && (items[k].id.Some? ==> items[k].id != items[l].id)
      && (items[k].robot.Some? ==> items[k].robot != items[l].robot)
  }

  /** New ids are distinct and unused. */
  ghost predicate Unused(newIds: seq<StationId>, t: Table, items: seq<Item>) {
    && |newIds| == |items|
    && (forall k, l :: 0 <= k < l < |newIds| ==> newIds[k] != newIds[l])
    && (forall k :: 0 <= k < |newIds| ==> newIds[k] !in t)
    && (forall k, l :: 0 <= k < |newIds| && 0 <= l < |items| ==> items[l].id != Some(newIds[k]))
  }

  function IdOf(items: seq<Item>, newIds: seq<StationId>, k: nat): StationId
    requires k < |items| == |newIds|
  {
    if items[k].id.Some? then items[k].id.value else newIds[k]
  }

  /** The rows of the first `n` items, edits or creates only. */
  function Writes(
    map_: MapId, items: seq<Item>, inspections: seq<Inspection>, newIds: seq<StationId>, edits: bool, n: nat): Table
    requires n <= |items| == |newIds| == |inspections|
  {
    if n == 0 then map[]
    else
      var before := Writes(map_, items, inspections, newIds, edits, n - 1);
      if items[n - 1].id.Some? == edits then
        before[IdOf(items, newIds, n - 1) := Requested(map_, items[n - 1], inspections[n - 1])]
      else
        before
  }

  lemma {:induction false} IdsAreDistinct(items: seq<Item>, newIds: seq<StationId>, t: Table)
    requires WellFormed(items) && Unused(newIds, t, items)
    ensures forall k, l :: 0 <= k < l < |items| ==> IdOf(items, newIds, k) != IdOf(items, newIds, l)
  {
  }

  ghost predicate WrittenBy(items: seq<Item>, newIds: seq<StationId>, edits: bool, n: nat, id: StationId)
    requires n <= |items| == |newIds|
  {
    exists k :: 0 <= k < n && items[k].id.Some? == edits && IdOf(items, newIds, k) == id
  }

  lemma {:induction false} WrittenIds(
    map_: MapId, items: seq<Item>, inspections: seq<Inspection>, newIds: seq<StationId>, edits: bool, n: nat,
    id: StationId)
    requires n <= |items| == |newIds| == |inspections|
    ensures id in Writes(map_, items, inspections, newIds, edits, n) <==> WrittenBy(items, newIds, edits, n, id)
  {
    if n > 0 {
      WrittenIds(map_, items, inspections, newIds, edits, n - 1, id);
      if WrittenBy(items, newIds, edits, n - 1, id) {
        var k :| 0 <= k < n - 1 && items[k].id.Some? == edits && IdOf(items, newIds, k) == id;
        assert WrittenBy(items, newIds, edits, n, id);
      } else if items[n - 1].id.Some? == edits && IdOf(items, newIds, n - 1) == id {
        assert WrittenBy(items, newIds, edits, n, id);
      }
    }
  }

  lemma {:induction false} WrittenRow(
    map_: MapId, items: seq<Item>, inspections: seq<Inspection>, newIds: seq<StationId>, t: Table, edits: bool, n: nat,
    k: nat)
    requires k < n <= |items| == |newIds| == |inspections|
    requires WellFormed(items) && Unused(newIds, t, items) && items[k].id.Some? == edits
    ensures
      var w, id := Writes(map_, items, inspections, newIds, edits, n), IdOf(items, newIds, k);
      id in w && w[id] == Requested(map_, items[k], inspections[k])
  {
    IdsAreDistinct(items, newIds, t);
    if k < n - 1 {
      WrittenRow(map_, items, inspections, newIds, t, edits, n - 1, k);
      assert IdOf(items, newIds, k) != IdOf(items, newIds, n - 1);
    }
  }

  lemma WritesAreTheItems(
    map_: MapId, items: seq<Item>, inspections: seq<Inspection>, newIds: seq<StationId>, t: Table, edits: bool, n: nat)
    requires n <= |items| == |newIds| == |inspections|
    requires WellFormed(items) && Unused(newIds, t, items)
    ensures
      var w := Writes(map_, items, inspections, newIds, edits, n);
      && (forall id :: id in w <==> WrittenBy(items, newIds, edits, n, id))
      && (forall k :: 0 <= k < n && items[k].id.Some? == edits ==>
            IdOf(items, newIds, k) in w && w[IdOf(items, newIds, k)] == Requested(map_, items[k], inspections[k]))
  {
    hide Writes;
    hide WrittenBy;
    forall id
      ensures id in Writes(map_, items, inspections, newIds, edits, n) <==> WrittenBy(items, newIds, edits, n, id)
    {
      WrittenIds(map_, items, inspections, newIds, edits, n, id);
    }
    forall k | 0 <= k < n && items[k].id.Some? == edits
      ensures
        var w, id := Writes(map_, items, inspections, newIds, edits, n), IdOf(items, newIds, k);
        id in w && w[id] == Requested(map_, items[k], inspections[k])
    {
      WrittenRow(map_, items, inspections, newIds, t, edits, n, k);
    }
  }

  // ---------------------------------------------------------------- from the request to the batch

  function OtherMaps(t: Table, map_: MapId): Table {
    map i | i in t && t[i].map_ != map_ :: t[i]
  }

  /** The table after the dropped stations are gone and the changed assignments released. */
  ghost predicate Cleared(t: Table, t': Table, map_: MapId, edits: Table) {
    && (forall i :: i in t' <==> i in t && (t[i].map_ == map_ ==> i in edits))
    && (forall i :: i in t' && t[i].map_ != map_ ==> t'[i] == t[i])
    && (forall i :: i in t' && t[i].map_ == map_ ==>
          t'[i] == if t[i].robot == edits[i].robot then t[i] else t[i].(robot := None))
  }

  lemma ItemOf(items: seq<Item>, newIds: seq<StationId>, edits: bool, id: StationId, n: nat) returns (k: nat)
    requires n <= |items| == |newIds| && WrittenBy(items, newIds, edits, n, id)
    ensures k < n && items[k].id.Some? == edits && IdOf(items, newIds, k) == id
  {
    k :| 0 <= k < n && items[k].id.Some? == edits && IdOf(items, newIds, k) == id;
  }

  /** What validation establishes about the rows to be written. */
  ghost predicate GoodBatch(t: Table, map_: MapId, edits: Table, creates: Table) {
    && (forall i :: i in edits ==> OnMap(t, map_, i) && edits[i].map_ == map_)
    && (forall i :: i in creates ==> i !in t && creates[i].map_ == map_)
    && UniqueRobots(edits + creates)
    && (forall i :: i in edits + creates && (edits + creates)[i].robot.Some? ==>
          !TakenElsewhere(t, map_, (edits + creates)[i].robot.value))
  }

  /** Row `id` of the batch is the one item `k` asks for. */
  predicate Describes(
    map_: MapId, items: seq<Item>, inspections: seq<Inspection>, newIds: seq<StationId>, k: nat,
    id: StationId, row: Station)
    requires |items| == |newIds| == |inspections|
  {
    k < |items| && IdOf(items, newIds, k) == id && row == Requested(map_, items[k], inspections[k])
  }

  ghost predicate Described(
    map_: MapId, items: seq<Item>, inspections: seq<Inspection>, newIds: seq<StationId>, all: Table)
    requires |items| == |newIds| == |inspections|
  {
    forall id :: id in all ==> exists k: nat :: Describes(map_, items, inspections, newIds, k, id, all[id])
  }

  lemma BatchIsDescribed(
    t: Table, map_: MapId, items: seq<Item>, inspections: seq<Inspection>, newIds: seq<StationId>)
    requires |inspections| == |items| && WellFormed(items) && Unused(newIds, t, items)
    ensures
      var n := |items|;
      var edits, creates :=
        Writes(map_, items, inspections, newIds, true, n), Writes(map_, items, inspections, newIds, false, n);
      && Described(map_, items, inspections, newIds, edits + creates)
      && (forall id :: id in edits ==> edits[id].map_ == map_ && exists k :: 0 <= k < n && items[k].id == Some(id))
      && (forall id :: id in creates ==> creates[id].map_ == map_ && id in newIds)
  {
    var n := |items|;
    var edits, creates :=
      Writes(map_, items, inspections, newIds, true, n), Writes(map_, items, inspections, newIds, false, n);
    WritesAreTheItems(map_, items, inspections, newIds, t, true, n);
    WritesAreTheItems(map_, items, inspections, newIds, t, false, n);
    hide Writes;
    var all := edits + creates;
    forall id | id in edits
      ensures edits[id].map_ == map_ && exists k :: 0 <= k < n && items[k].id == Some(id)
      ensures exists k: nat :: Describes(map_, items, inspections, newIds, k, id, edits[id])
    {
      var k := ItemOf(items, newIds, true, id, n);
      assert Describes(map_, items, inspections, newIds, k, id, edits[id]);
    }
    forall id | id in creates
      ensures creates[id].map_ == map_ && id in newIds
      ensures exists k: nat :: Describes(map_, items, inspections, newIds, k, id, creates[id])
    {
      var k := ItemOf(items, newIds, false, id, n);
      assert Describes(map_, items, inspections, newIds, k, id, creates[id]);
    }
    forall id | id in all ensures exists k: nat :: Describes(map_, items, inspections, newIds, k, id, all[id]) {
      assert all[id] == if id in creates then creates[id] else edits[id];
    }
  }

  lemma DescribedBatchKeepsRobotsApart(
    t: Table, map_: MapId, items: seq<Item>, inspections: seq<Inspection>,
    newIds: seq<StationId>, robots: map<RobotId, Option<MapId>>, all: Table)
    requires |inspections| == |items| == |newIds| && WellFormed(items)
    requires Acceptable(t, map_, items, inspections, robots)
    requires Described(map_, items, inspections, newIds, all)
    ensures UniqueRobots(all)
    ensures forall id :: id in all && all[id].robot.Some? ==> !TakenElsewhere(t, map_, all[id].robot.value)
  {
    forall i, j | i in all && j in all && i != j && all[i].robot.Some? ensures all[i].robot != all[j].robot {
      var k: nat :| Describes(map_, items, inspections, newIds, k, i, all[i]);
      var l: nat :| Describes(map_, items, inspections, newIds, l, j, all[j]);
    }
    forall id | id in all && all[id].robot.Some? ensures !TakenElsewhere(t, map_, all[id].robot.value) {
      var k: nat :| Describes(map_, items, inspections, newIds, k, id, all[id]);
      assert ItemError(t, map_, robots, k, items[k], inspections[k]).None?;
    }
  }

  lemma ItemsFormGoodBatch(
    t: Table, map_: MapId, items: seq<Item>, inspections: seq<Inspection>,
    newIds: seq<StationId>, robots: map<RobotId, Option<MapId>>)
    requires |inspections| == |items| && WellFormed(items) && Unused(newIds, t, items)
    requires Acceptable(t, map_, items, inspections, robots)
    ensures
      var n := |items|;
      GoodBatch(
        t, map_, Writes(map_, items, inspections, newIds, true, n), Writes(map_, items, inspections, newIds, false, n))
  {
    var n := |items|;
    var edits, creates :=
      Writes(map_, items, inspections, newIds, true, n), Writes(map_, items, inspections, newIds, false, n);
    hide Writes;
    BatchIsDescribed(t, map_, items, inspections, newIds);
    DescribedBatchKeepsRobotsApart(t, map_, items, inspections, newIds, robots, edits + creates);
  }

  /** Clearing prepares the table for the edits and the creates together. */
  lemma ClearedIsPrepared(t: Table, t': Table, map_: MapId, edits: Table, creates: Table)
    requires UniqueRobots(t) && GoodBatch(t, map_, edits, creates) && Cleared(t, t', map_, edits)
    ensures Prepared(t', edits + creates)
  {
    var all := edits + creates;
    forall i | i in t' && i in all ensures t'[i].robot.None? || t'[i].robot == all[i].robot {
      assert i in edits && i !in creates;
    }
    forall i, w | i in t' && i !in all && w in all && t'[i].robot.Some? ensures t'[i].robot != all[w].robot {
      assert t[i].map_ != map_;
    }
  }

  lemma ClearedKeepsOtherMaps(t: Table, t': Table, map_: MapId, edits: Table, creates: Table)
    requires GoodBatch(t, map_, edits, creates) && Cleared(t, t', map_, edits)
    ensures OtherMaps(t' + edits + creates, map_) == OtherMaps(t, map_)
    ensures forall id :: OnMap(t' + edits + creates, map_, id) <==> id in edits || id in creates
  {
  }

  /** With the edits written, the table is still prepared for the creates. */
  lemma EditsLeavePrepared(t: Table, edits: Table, creates: Table)
    requires edits.Keys !! creates.Keys && Prepared(t, edits + creates)
    ensures Prepared(t, edits)
    ensures Prepared(t + edits, creates)
  {
    var all := edits + creates;
    EveryPartIsUnique(t, all, edits.Keys);
    assert Part(all, edits.Keys) == edits;
    forall i | i in edits ensures all[i] == edits[i] {
    }
    forall i | i in creates ensures all[i] == creates[i] {
    }
    forall i, w | i in t + edits && i !in creates && w in creates && (t + edits)[i].robot.Some?
      ensures (t + edits)[i].robot != creates[w].robot
    {
      if i in edits {
        assert all[i].robot != all[w].robot;
      }
    }
  }

  /** The stored table is the old one with the map's stations replaced by exactly the requested ones. */
  ghost predicate IsSnapshot(
    t: Table, t': Table, map_: MapId, items: seq<Item>, inspections: seq<Inspection>, newIds: seq<StationId>)
    requires |items| == |newIds| == |inspections|
  {
    && OtherMaps(t', map_) == OtherMaps(t, map_)
    && (forall k :: 0 <= k < |items| ==>
          && IdOf(items, newIds, k) in t'
          && t'[IdOf(items, newIds, k)] == Requested(map_, items[k], inspections[k]))
    && (forall id :: OnMap(t', map_, id) ==> exists k :: 0 <= k < |items| && IdOf(items, newIds, k) == id)
  }

  /** Both statements together write the requested row of every item, and no others. */
  lemma BothWritesAreTheItems(
    map_: MapId, items: seq<Item>, inspections: seq<Inspection>, newIds: seq<StationId>, t: Table)
    requires |inspections| == |items| && WellFormed(items) && Unused(newIds, t, items)
    ensures
      var n := |items|;
      var edits, creates :=
        Writes(map_, items, inspections, newIds, true, n), Writes(map_, items, inspections, newIds, false, n);
      && (forall id :: id in edits || id in creates ==> exists k :: 0 <= k < n && IdOf(items, newIds, k) == id)
      && (forall k :: 0 <= k < n ==>
            var id := IdOf(items, newIds, k);
            && (if items[k].id.Some? then id in edits && id !in creates else id in creates)
            && (edits + creates)[id] == Requested(map_, items[k], inspections[k]))
  {
    var n := |items|;
    var edits, creates :=
      Writes(map_, items, inspections, newIds, true, n), Writes(map_, items, inspections, newIds, false, n);
    WritesAreTheItems(map_, items, inspections, newIds, t, true, n);
    WritesAreTheItems(map_, items, inspections, newIds, t, false, n);
    hide Writes;
    forall id | id in edits || id in creates ensures exists k :: 0 <= k < n && IdOf(items, newIds, k) == id {
      var k := ItemOf(items, newIds, id in edits, id, n);
    }
    forall k | 0 <= k < n && items[k].id.Some? ensures IdOf(items, newIds, k) !in creates {
      if WrittenBy(items, newIds, false, n, IdOf(items, newIds, k)) {
        var l := ItemOf(items, newIds, false, IdOf(items, newIds, k), n);
      }
    }
  }

  lemma BatchIsSnapshot(
    t: Table, t': Table, map_: MapId, items: seq<Item>, inspections: seq<Inspection>,
    newIds: seq<StationId>, robots: map<RobotId, Option<MapId>>)
    requires |inspections| == |items| && WellFormed(items) && Unused(newIds, t, items) && UniqueRobots(t)
    requires Acceptable(t, map_, items, inspections, robots)
    requires Cleared(t, t', map_, Writes(map_, items, inspections, newIds, true, |items|))
    ensures
      var n := |items|;
      IsSnapshot(
        t, t' + Writes(map_, items, inspections, newIds, true, n) + Writes(map_, items, inspections, newIds, false, n),
        map_, items, inspections, newIds)
  {
    var n := |items|;
    var edits, creates :=
      Writes(map_, items, inspections, newIds, true, n), Writes(map_, items, inspections, newIds, false, n);
    ItemsFormGoodBatch(t, map_, items, inspections, newIds, robots);
    ClearedKeepsOtherMaps(t, t', map_, edits, creates);
    BothWritesAreTheItems(map_, items, inspections, newIds, t);
    hide *;
    ItemsAreSnapshot(t, t', map_, items, inspections, newIds, edits, creates);
  }

  /** Two statements that write the requested rows, and only rows of this map, leave a snapshot. */
  lemma ItemsAreSnapshot(
    t: Table, t': Table, map_: MapId, items: seq<Item>, inspections: seq<Inspection>,
    newIds: seq<StationId>, edits: Table, creates: Table)
    requires |items| == |newIds| == |inspections|
    requires OtherMaps(t' + edits + creates, map_) == OtherMaps(t, map_)
    requires forall id :: OnMap(t' + edits + creates, map_, id) <==> id in edits || id in creates
    requires
      forall id :: id in edits || id in creates ==> exists k :: 0 <= k < |items| && IdOf(items, newIds, k) == id
    requires
      forall k :: 0 <= k < |items| ==>
        var id := IdOf(items, newIds, k);
        && (id in edits || id in creates)
        && (edits + creates)[id] == Requested(map_, items[k], inspections[k])
    ensures IsSnapshot(t, t' + edits + creates, map_, items, inspections, newIds)
  {
    var t'' := t' + edits + creates;
    hide OtherMaps;
    hide Requested;
    hide IdOf;
    hide OnMap;
    forall k | 0 <= k < |items|
      ensures
        && IdOf(items, newIds, k) in t''
        && t''[IdOf(items, newIds, k)] == Requested(map_, items[k], inspections[k])
    {
      WrittenIsThere(t', edits, creates, IdOf(items, newIds, k));
    }
  }

  lemma WrittenIsThere(t: Table, edits: Table, creates: Table, id: StationId)
    requires id in edits || id in creates
    ensures id in t + edits + creates && (t + edits + creates)[id] == (edits + creates)[id]
  {
  }

  // ---------------------------------------------------------------- spelled out

  /** Another map has a station of this robot. */
  ghost predicate DockedOnAnotherMap(t: Table, map_: MapId, robot: RobotId) {
    exists i :: i in t && t[i].robot == Some(robot) && t[i].map_ != map_
  }

  /** What the service demands of one item, in terms of the stored rows and the inspection alone. */
  ghost predicate ItemIsFine(
    t: Table, map_: MapId, item: Item, i: Inspection, robots: map<RobotId, Option<MapId>>)
  {
    && (item.id.Some? ==> item.id.value in t && t[item.id.value].map_ == map_)
    && i.boundaryExists && i.valid && i.aligned && (i.covered || i.protrusionAllowed)
    && (item.robot.Some? ==>
          && item.robot.value in robots && robots[item.robot.value] == Some(map_)
          && !DockedOnAnotherMap(t, map_, item.robot.value))
  }

  lemma AcceptableSpelledOut(
    t: Table, map_: MapId, items: seq<Item>, inspections: seq<Inspection>, robots: map<RobotId, Option<MapId>>)
    requires |inspections| == |items|
    ensures
      Acceptable(t, map_, items, inspections, robots) <==>
      forall k :: 0 <= k < |items| ==> ItemIsFine(t, map_, items[k], inspections[k], robots)
  {
    forall k | 0 <= k < |items|
      ensures
        ItemIsFine(t, map_, items[k], inspections[k], robots) <==>
        && (items[k].id.Some? ==> OnMap(t, map_, items[k].id.value))
        && ItemError(t, map_, robots, k, items[k], inspections[k]).None?
    {
      OneItemSpelledOut(t, map_, items[k], inspections[k], robots, k);
    }
    hide ItemError;
    hide OnMap;
    hide ItemIsFine;
  }

  lemma OneItemSpelledOut(
    t: Table, map_: MapId, item: Item, i: Inspection, robots: map<RobotId, Option<MapId>>, k: nat)
    ensures
      ItemIsFine(t, map_, item, i, robots) <==>
      (item.id.Some? ==> OnMap(t, map_, item.id.value)) && ItemError(t, map_, robots, k, item, i).None?
  {
  }

  /** A row has what its item asks for: its robot, its heading or else SOUTH, the snapped polygon or else its own. */
  ghost predicate RowHas(row: Station, map_: MapId, item: Item, i: Inspection) {
    && row.map_ == map_
    && row.robot == item.robot
    && (item.heading.Some? ==> row.heading == item.heading.value)
    && (item.heading.None? ==> row.heading == South)
    && (i.snapped.Some? ==> row.geometry == i.snapped.value)
    && (i.snapped.None? ==> row.geometry == item.geometry)
  }

  /** The stored row of item `k`: an edited station keeps its id, a new one has the new id. */
  ghost predicate StoredAs(
    t: Table, map_: MapId, items: seq<Item>, inspections: seq<Inspection>, newIds: seq<StationId>, k: nat,
    id: StationId)
    requires k < |items| == |inspections| == |newIds|
  {
    && (items[k].id.Some? ==> id == items[k].id.value)
    && (items[k].id.None? ==> id == newIds[k])
    && id in t && RowHas(t[id], map_, items[k], inspections[k])
  }

  /** A snapshot, row by row: the items' stations, no others on this map, and every other map as it was. */
  lemma SnapshotSpelledOut(
    t: Table, t': Table, map_: MapId, items: seq<Item>, inspections: seq<Inspection>, newIds: seq<StationId>)
    requires |items| == |inspections| == |newIds| && IsSnapshot(t, t', map_, items, inspections, newIds)
    ensures
      forall k :: 0 <= k < |items| ==>
        StoredAs(t', map_, items, inspections, newIds, k, IdOf(items, newIds, k))
    ensures
      forall i :: i in t' && t'[i].map_ == map_ ==>
        exists k :: 0 <= k < |items| && (items[k].id == Some(i) || (items[k].id.None? && newIds[k] == i))
    ensures forall i :: i in t && t[i].map_ != map_ ==> i in t' && t'[i] == t[i]
    ensures forall i :: i in t' && t'[i].map_ != map_ ==> i in t && t[i] == t'[i]
  {
    forall i | i in t' && t'[i].map_ == map_
      ensures exists k :: 0 <= k < |items| && (items[k].id == Some(i) || (items[k].id.None? && newIds[k] == i))
    {
      assert OnMap(t', map_, i);
      var k :| 0 <= k < |items| && IdOf(items, newIds, k) == i;
      assert items[k].id == Some(i) || (items[k].id.None? && newIds[k] == i);
    }
    forall i | i in t && t[i].map_ != map_ ensures i in t' && t'[i] == t[i] {
      assert i in OtherMaps(t, map_) && OtherMaps(t, map_)[i] == t[i];
      assert i in OtherMaps(t', map_) && OtherMaps(t', map_)[i] == t'[i];
    }
    forall i | i in t' && t'[i].map_ != map_ ensures i in t && t[i] == t'[i] {
      assert i in OtherMaps(t', map_) && OtherMaps(t', map_)[i] == t'[i];
      assert i in OtherMaps(t, map_) && OtherMaps(t, map_)[i] == t[i];
    }
  }
}
