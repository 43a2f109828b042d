/** The docking-station rows, changed in place by the statements of one save. */
module DockingStationTable {
  import opened Options
  import opened DockingStations

  /** The first error in the order the service looks for them. */
  ghost predicate IsFirstError(
    t: Table, map_: MapId, items: seq<Item>, inspections: seq<Inspection>, robots: map<RobotId, Option<MapId>>,
    e: Error)
    requires |inspections| == |items|
  {
    || (exists k ::
          && 0 <= k < |items| && Stale(t, map_, items[k]) && e == StaleEdit(k)
          && forall l :: 0 <= l < k ==> !Stale(t, map_, items[l]))
    || (exists k ::
          && 0 <= k < |items| && ItemError(t, map_, robots, k, items[k], inspections[k]) == Some(e)
          && (forall l :: 0 <= l < k ==> ItemError(t, map_, robots, l, items[l], inspections[l]).None?)
          && (forall l :: 0 <= l < |items| ==> !Stale(t, map_, items[l])))
  }

  predicate Stale(t: Table, map_: MapId, item: Item) {
    item.id.Some? && !OnMap(t, map_, item.id.value)
  }

  /** The unique constraint refuses this row. */
  predicate Conflicts(t: Table, id: StationId, station: Station) {
    station.robot.Some? && exists i :: i in t && i != id && t[i].robot == station.robot
  }

  /** The first station of the list whose robot the table has at another station. */
  ghost predicate IsCulprit(t: Table, ids: seq<StationId>, writes: Table, culprit: Option<nat>)
    requires forall id :: id in ids ==> id in writes
  {
    match culprit
    case None => forall k :: 0 <= k < |ids| ==> !Conflicts(t, ids[k], writes[ids[k]])
    case Some(k) =>
      && k < |ids| && Conflicts(t, ids[k], writes[ids[k]])
      && forall l :: 0 <= l < k ==> !Conflicts(t, ids[l], writes[ids[l]])
  }

  lemma NoConflict(t: Table, writes: Table, ids: set<StationId>, id: StationId)
    requires Prepared(t, writes) && id in writes
    ensures !Conflicts(t + Part(writes, ids), id, writes[id])
  {
    EveryPartIsUnique(t, writes, ids + {id});
    OneMorePart(t, writes, ids, id);
    var t' := t + Part(writes, ids + {id});
    forall i | i in t + Part(writes, ids) && i != id && writes[id].robot.Some?
      ensures (t + Part(writes, ids))[i].robot != writes[id].robot
    {
      assert t'[i].robot != t'[id].robot;
    }
  }

  lemma WritingKeepsUnique(t: Table, id: StationId, station: Station)
    requires UniqueRobots(t) && !Conflicts(t, id, station)
    ensures UniqueRobots(t[id := station])
  {
  }

  class StationTable {
    var rows: Table

    constructor ()
      ensures rows == map[]
    {
      rows := map[];
    }

    method DeleteMany(map_: MapId, ids: set<StationId>)
      modifies this
      ensures OtherMaps(rows, map_) == OtherMaps(old(rows), map_)
      ensures forall i :: OnMap(rows, map_, i) <==> OnMap(old(rows), map_, i) && i !in ids
      ensures forall i :: i in rows ==> i in old(rows) && rows[i] == old(rows)[i]
      ensures forall i :: i in old(rows) && old(rows)[i].map_ != map_ ==> i in rows
    {
      rows := map i | i in rows && !(rows[i].map_ == map_ && i in ids) :: rows[i];
    }

    method ClearAssignments(map_: MapId, ids: set<StationId>)
      modifies this
      ensures rows.Keys == old(rows).Keys
      ensures
        forall i :: i in rows ==>
          rows[i] == if old(rows)[i].map_ == map_ && i in ids then old(rows)[i].(robot := None) else old(rows)[i]
    {
      rows := map i | i in rows :: if rows[i].map_ == map_ && i in ids then rows[i].(robot := None) else rows[i];
    }

    /** One row of an UPDATE or INSERT; the unique constraint is checked at once. */
    method WriteRow(id: StationId, station: Station) returns (conflict: bool)
      modifies this
      ensures conflict <==> Conflicts(old(rows), id, station)
      ensures
        conflict <==>
          exists i :: i in old(rows) && i != id && old(rows)[i].robot == station.robot && station.robot != None
      ensures rows == if conflict then old(rows) else old(rows)[id := station]
    {
      if station.robot.Some? && exists i :: i in rows && i != id && rows[i].robot == station.robot {
        return true;
      }
      rows := rows[id := station];
      return false;
    }

    /**
     One statement: the database writes the rows in an order of its own choice and
     undoes them all on a conflict.  A prepared batch meets no conflict in any order.
     */
    method WriteRows(writes: Table) returns (conflict: bool)
      modifies this
      ensures Prepared(old(rows), writes) ==> !conflict
      ensures rows == if conflict then old(rows) else old(rows) + writes
      ensures UniqueRobots(old(rows)) ==> UniqueRobots(rows)
    {
      ghost var before := rows;
      var savepoint := rows;
      var pending := writes.Keys;
      ghost var written: set<StationId> := {};
      while pending != {}
        invariant pending <= writes.Keys && written == writes.Keys - pending
        invariant rows == before + Part(writes, written)
        invariant UniqueRobots(before) ==> UniqueRobots(rows)
        decreases |pending|
      {
        var id :| id in pending;
        if Prepared(before, writes) {
          NoConflict(before, writes, written, id);
        }
        if UniqueRobots(rows) && !Conflicts(rows, id, writes[id]) {
          WritingKeepsUnique(rows, id, writes[id]);
        }
        OneMorePart(before, writes, written, id);
        var failed := WriteRow(id, writes[id]);
        if failed {
          rows := savepoint;
          return true;
        }
        pending, written := pending - {id}, written + {id};
      }
      assert Part(writes, writes.Keys) == writes;
      return false;
    }

    /**
     `save_many`: at most one UPDATE and one INSERT, and the stored rows in request
     order.  After a conflict everything is as before, and `culprit` is the first
     station whose robot another stored station has.
     */
    method SaveMany(map_: MapId, ids: seq<StationId>, edits: Table, creates: Table)
      returns (infos: Option<seq<Info>>, culprit: Option<nat>)
      requires forall id :: id in ids <==> id in edits || id in creates
      modifies this
      ensures Prepared(old(rows), edits) && Prepared(old(rows) + edits, creates) ==> infos.Some?
      ensures rows == if infos.Some? then old(rows) + edits + creates else old(rows)
      ensures UniqueRobots(old(rows)) ==> UniqueRobots(rows)
      ensures
        infos.Some? ==>
          |infos.value| == |ids| &&
          forall k :: 0 <= k < |ids| ==> ids[k] in rows && infos.value[k] == Info(ids[k], rows[ids[k]])
      ensures infos.Some? ==> culprit.None?
      ensures infos.None? ==> IsCulprit(rows, ids, edits + creates, culprit)
      ensures
        culprit.Some? ==>
          && culprit.value < |ids|
          && exists i ::
               i in rows && i != ids[culprit.value] && rows[i].robot != None &&
               rows[i].robot == (edits + creates)[ids[culprit.value]].robot
    {
      var savepoint := rows;
      culprit := None;
      var conflict := WriteRows(edits);
      if conflict {
        culprit := FindCulprit(ids, edits + creates);
        return None, culprit;
      }
      conflict := WriteRows(creates);
      if conflict {
        rows := savepoint;
        culprit := FindCulprit(ids, edits + creates);
        return None, culprit;
      }
      var byId := map id | id in rows && id in ids :: rows[id];
      var out := [];
      for k := 0 to |ids|
        invariant |out| == k
        invariant forall l :: 0 <= l < k ==> ids[l] in rows && out[l] == Info(ids[l], rows[ids[l]])
      {
        assert ids[k] in ids;
        out := out + [Info(ids[k], byId[ids[k]])];
      }
      infos := Some(out);
    }

    /** The query after a conflict, on the table as it was before the statements. */
    method FindCulprit(ids: seq<StationId>, writes: Table) returns (culprit: Option<nat>)
      requires forall id :: id in ids ==> id in writes
      ensures IsCulprit(rows, ids, writes, culprit)
    {
      for k := 0 to |ids|
        invariant forall l :: 0 <= l < k ==> !Conflicts(rows, ids[l], writes[ids[l]])
      {
        if Conflicts(rows, ids[k], writes[ids[k]]) {
          return Some(k);
        }
      }
      return None;
    }

    /** Validates the whole request, in request order, before any row is touched. */
    method FindError(
      map_: MapId, items: seq<Item>, inspections: seq<Inspection>, robots: map<RobotId, Option<MapId>>)
      returns (error: Option<Error>)
      requires |inspections| == |items|
      ensures error.None? <==> Acceptable(rows, map_, items, inspections, robots)
      ensures error.Some? ==> IsFirstError(rows, map_, items, inspections, robots, error.value)
    {
      for k := 0 to |items|
        invariant forall l :: 0 <= l < k ==> !Stale(rows, map_, items[l])
      {
        if Stale(rows, map_, items[k]) {
          return Some(StaleEdit(k));
        }
      }
      for k := 0 to |items|
        invariant forall l :: 0 <= l < k ==> ItemError(rows, map_, robots, l, items[l], inspections[l]).None?
      {
        var e := ItemError(rows, map_, robots, k, items[k], inspections[k]);
        if e.Some? {
          return e;
        }
      }
      return None;
    }
  }

  /** Every station of the map lies within the boundary. */
  predicate StationsInside(t: Table, map_: MapId, boundary: Option<Geometry>) {
    forall i :: i in t && t[i].map_ == map_ ==> boundary.Some? && t[i].geometry <= boundary.value
  }

  /** What a reported error says of the request, in terms of the stored rows and the inspections alone. */
  ghost predicate Justified(
    t: Table, map_: MapId, items: seq<Item>, inspections: seq<Inspection>, robots: map<RobotId, Option<MapId>>,
    e: Error)
    requires |inspections| == |items|
  {
    match e
    case StaleEdit(k) =>
      && k < |items| && items[k].id.Some?
      && !(items[k].id.value in t && t[items[k].id.value].map_ == map_)
    case BoundaryMissing => exists k :: 0 <= k < |items| && !inspections[k].boundaryExists
    case BadGeometry(k) =>
      && k < |items| && inspections[k].boundaryExists
      && var i := inspections[k]; !i.valid || !i.aligned || (!i.covered && !i.protrusionAllowed)
    case RobotMissing(k) => k < |items| && items[k].robot.Some? && items[k].robot.value !in robots
    case RobotOnOtherMap(k) =>
      && k < |items| && items[k].robot.Some? && items[k].robot.value in robots
      && robots[items[k].robot.value] != Some(map_)
    case RobotTaken(k) =>
      k < |items| && items[k].robot.Some? && DockedOnAnotherMap(t, map_, items[k].robot.value)
    case RobotConflict => false
  }

  /** The edited stations are all on the map, the items before this one are fine, and this one is placed well. */
  ghost predicate FineBefore(
    t: Table, map_: MapId, items: seq<Item>, inspections: seq<Inspection>, robots: map<RobotId, Option<MapId>>, k: nat)
    requires |inspections| == |items|
  {
    && (forall l :: 0 <= l < |items| && items[l].id.Some? ==>
          items[l].id.value in t && t[items[l].id.value].map_ == map_)
    && (forall l :: 0 <= l < k && l < |items| ==> ItemIsFine(t, map_, items[l], inspections[l], robots))
  }

  /** No earlier item, and no earlier test of this one, has a fault. */
  ghost predicate FirstFault(
    t: Table, map_: MapId, items: seq<Item>, inspections: seq<Inspection>, robots: map<RobotId, Option<MapId>>,
    e: Error)
    requires |inspections| == |items|
  {
    match e
    case StaleEdit(k) =>
      forall l :: 0 <= l < k && l < |items| && items[l].id.Some? ==>
        items[l].id.value in t && t[items[l].id.value].map_ == map_
    case BoundaryMissing => FineBefore(t, map_, items, inspections, robots, 0)
    case BadGeometry(k) => FineBefore(t, map_, items, inspections, robots, k)
    case RobotMissing(k) =>
      FineBefore(t, map_, items, inspections, robots, k) && k < |items| && PlacedOnMap(inspections[k])
    case RobotOnOtherMap(k) =>
      FineBefore(t, map_, items, inspections, robots, k) && k < |items| && PlacedOnMap(inspections[k])
    case RobotTaken(k) =>
      && FineBefore(t, map_, items, inspections, robots, k) && k < |items| && PlacedOnMap(inspections[k])
      && items[k].robot.Some? && items[k].robot.value in robots && robots[items[k].robot.value] == Some(map_)
    case RobotConflict => false
  }

  ghost predicate PlacedOnMap(i: Inspection) {
    i.boundaryExists && i.valid && i.aligned && (i.covered || i.protrusionAllowed)
  }

  lemma ErrorSpelledOut(
    t: Table, map_: MapId, items: seq<Item>, inspections: seq<Inspection>, robots: map<RobotId, Option<MapId>>,
    e: Error)
    requires |inspections| == |items| && IsFirstError(t, map_, items, inspections, robots, e)
    ensures Justified(t, map_, items, inspections, robots, e)
    ensures FirstFault(t, map_, items, inspections, robots, e)
  {
    if k :| && 0 <= k < |items| && Stale(t, map_, items[k]) && e == StaleEdit(k)
            && forall l :: 0 <= l < k ==> !Stale(t, map_, items[l]) {
      assert forall l :: 0 <= l < k ==> !Stale(t, map_, items[l]);
    } else {
      var k :|
        && 0 <= k < |items| && ItemError(t, map_, robots, k, items[k], inspections[k]) == Some(e)
        && (forall l :: 0 <= l < k ==> ItemError(t, map_, robots, l, items[l], inspections[l]).None?)
        && (forall l :: 0 <= l < |items| ==> !Stale(t, map_, items[l]));
      assert forall l :: 0 <= l < |items| ==> !Stale(t, map_, items[l]);
      forall l | 0 <= l < k ensures ItemIsFine(t, map_, items[l], inspections[l], robots) {
        assert ItemError(t, map_, robots, l, items[l], inspections[l]).None?;
        OneItemSpelledOut(t, map_, items[l], inspections[l], robots, l);
      }
    }
  }
}
