/** The snapshot save under the map lock: validate, delete, release, edit, create, answer in request order. */
module DockingStationService {
  import opened Options
  import opened DockingStations
  import opened DockingStationTable

  /** Positions of a request, split by action. */
  ghost predicate Splits(items: seq<Item>, editIndex: seq<nat>, createIndex: seq<nat>, n: nat)
    requires n <= |items|
  {
    && (forall j :: 0 <= j < |editIndex| ==> editIndex[j] < n && items[editIndex[j]].id.Some?)
    && (forall j :: 0 <= j < |createIndex| ==> createIndex[j] < n && items[createIndex[j]].id.None?)
    && (forall k :: 0 <= k < n ==> if items[k].id.Some? then k in editIndex else k in createIndex)
  }

  function IdsOf(items: seq<Item>, newIds: seq<StationId>, index: seq<nat>): (ids: seq<StationId>)
    requires |items| == |newIds| && forall j :: 0 <= j < |index| ==> index[j] < |items|
    ensures |ids| == |index| && forall j :: 0 <= j < |index| ==> ids[j] == IdOf(items, newIds, index[j])
  {
    seq(|index|, j requires 0 <= j < |index| => IdOf(items, newIds, index[j]))
  }

  lemma SplitNamesBatch(
    t: Table, map_: MapId, items: seq<Item>, inspections: seq<Inspection>, newIds: seq<StationId>,
    editIndex: seq<nat>, createIndex: seq<nat>)
    requires |items| == |inspections| && WellFormed(items) && Unused(newIds, t, items)
    requires Splits(items, editIndex, createIndex, |items|)
    ensures
      var n := |items|;
      && (forall id ::
            id in IdsOf(items, newIds, editIndex) <==> id in Writes(map_, items, inspections, newIds, true, n))
      && (forall id ::
            id in IdsOf(items, newIds, createIndex) <==> id in Writes(map_, items, inspections, newIds, false, n))
  {
    var n := |items|;
    WritesAreTheItems(map_, items, inspections, newIds, t, true, n);
    WritesAreTheItems(map_, items, inspections, newIds, t, false, n);
    hide Writes;
    NamedByIndex(items, newIds, editIndex, true);
    NamedByIndex(items, newIds, createIndex, false);
  }

  lemma NamedByIndex(items: seq<Item>, newIds: seq<StationId>, index: seq<nat>, edits: bool)
    requires |items| == |newIds|
    requires forall j :: 0 <= j < |index| ==> index[j] < |items| && items[index[j]].id.Some? == edits
    requires forall k :: 0 <= k < |items| && items[k].id.Some? == edits ==> k in index
    ensures forall id :: id in IdsOf(items, newIds, index) <==> WrittenBy(items, newIds, edits, |items|, id)
  {
    forall id | WrittenBy(items, newIds, edits, |items|, id) ensures id in IdsOf(items, newIds, index) {
      var k := ItemOf(items, newIds, edits, id, |items|);
      var j :| 0 <= j < |index| && index[j] == k;
      assert IdsOf(items, newIds, index)[j] == id;
    }
  }

  lemma PlaceOf(index: seq<nat>, k: nat) returns (place: nat)
    requires k in index
    ensures place < |index| && index[place] == k
  {
    place :| 0 <= place < |index| && index[place] == k;
  }

  ghost predicate TakenFrom(info: Info, k: nat, index: seq<nat>, rows: seq<Info>)
    requires |index| == |rows|
  {
    exists j :: 0 <= j < |index| && index[j] == k && info == rows[j]
  }

  /** What a statement returned for the rows of one action. */
  ghost predicate Answers(
    rows: seq<Info>, index: seq<nat>, map_: MapId, items: seq<Item>, inspections: seq<Inspection>,
    newIds: seq<StationId>)
    requires |items| == |newIds| == |inspections|
  {
    && |rows| == |index|
    && forall j :: 0 <= j < |index| ==>
         && index[j] < |items|
         && rows[j] == Info(IdOf(items, newIds, index[j]), Requested(map_, items[index[j]], inspections[index[j]]))
  }

  lemma StoredRowsAnswer(
    t: Table, map_: MapId, items: seq<Item>, inspections: seq<Inspection>, newIds: seq<StationId>,
    index: seq<nat>, edits: bool, stored: Table, rows: seq<Info>)
    requires |items| == |inspections| && WellFormed(items) && Unused(newIds, t, items)
    requires forall j :: 0 <= j < |index| ==> index[j] < |items| && items[index[j]].id.Some? == edits
    requires
      var w := Writes(map_, items, inspections, newIds, edits, |items|);
      forall id :: id in w ==> id in stored && stored[id] == w[id]
    requires |rows| == |index|
    requires
      forall j :: 0 <= j < |index| ==>
        IdOf(items, newIds, index[j]) in stored &&
        rows[j] == Info(IdOf(items, newIds, index[j]), stored[IdOf(items, newIds, index[j])])
    ensures Answers(rows, index, map_, items, inspections, newIds)
  {
    WritesAreTheItems(map_, items, inspections, newIds, t, edits, |items|);
  }

  /** The answer: item `k` of the request at place `k`. */
  ghost predicate InRequestOrder(
    infos: seq<Info>, map_: MapId, items: seq<Item>, inspections: seq<Inspection>, newIds: seq<StationId>)
    requires |items| == |newIds| == |inspections|
  {
    && |infos| == |items|
    && forall k :: 0 <= k < |items| ==>
         infos[k] == Info(IdOf(items, newIds, k), Requested(map_, items[k], inspections[k]))
  }

  class DockingStationService {
    const table: StationTable

    constructor (table: StationTable)
      ensures this.table == table
    {
      this.table := table;
    }

    /** `_partition_actions`, with the rows each action will write. */
    method Partition(map_: MapId, items: seq<Item>, inspections: seq<Inspection>, newIds: seq<StationId>)
      returns (editIndex: seq<nat>, createIndex: seq<nat>, edits: Table, creates: Table)
      requires |items| == |inspections| == |newIds|
      ensures Splits(items, editIndex, createIndex, |items|)
      ensures edits == Writes(map_, items, inspections, newIds, true, |items|)
      ensures creates == Writes(map_, items, inspections, newIds, false, |items|)
    {
      editIndex, createIndex, edits, creates := [], [], map[], map[];
      for k := 0 to |items|
        invariant Splits(items, editIndex, createIndex, k)
        invariant edits == Writes(map_, items, inspections, newIds, true, k)
        invariant creates == Writes(map_, items, inspections, newIds, false, k)
      {
        var id, row := IdOf(items, newIds, k), Requested(map_, items[k], inspections[k]);
        if items[k].id.Some? {
          editIndex, edits := editIndex + [k], edits[id := row];
        } else {
          createIndex, creates := createIndex + [k], creates[id := row];
        }
      }
    }

    /** Deletes the stations the request drops and releases the assignments it changes. */
    method Clear(map_: MapId, edits: Table)
      requires forall id :: id in edits ==> OnMap(table.rows, map_, id)
      modifies table
      ensures Cleared(old(table.rows), table.rows, map_, edits)
      ensures
        forall i :: i in table.rows <==>
          i in old(table.rows) && (old(table.rows)[i].map_ != map_ || i in edits)
      ensures
        forall i :: i in table.rows ==>
          var row := old(table.rows)[i];
          && (i in edits && row.robot != edits[i].robot ==> table.rows[i] == row.(robot := None))
          && (!(i in edits && row.robot != edits[i].robot) ==> table.rows[i] == row)
    {
      ghost var before := table.rows;
      var dropped := set id | id in table.rows && table.rows[id].map_ == map_ && id !in edits;
      var changed := set id | id in edits && table.rows[id].robot != edits[id].robot;
      assert forall i :: i in before ==> (i in dropped <==> before[i].map_ == map_ && i !in edits);
      if dropped != {} {
        table.DeleteMany(map_, dropped);
      }
      assert forall i :: i in table.rows <==> i in before && (before[i].map_ == map_ ==> i in edits);
      if edits != map[] {
        table.ClearAssignments(map_, changed);
      }
    }

    /** Puts the rows of both actions back at their places in the request. */
    method Merge(n: nat, index: seq<nat>, rows: seq<Info>) returns (infos: seq<Info>)
      requires |index| == |rows| && forall k :: 0 <= k < n ==> k in index
      ensures |infos| == n
      ensures forall k :: 0 <= k < n ==> TakenFrom(infos[k], k, index, rows)
    {
      infos := [];
      for k := 0 to n
        invariant |infos| == k
        invariant forall l :: 0 <= l < k ==> TakenFrom(infos[l], l, index, rows)
      {
        ghost var place := PlaceOf(index, k);
        var j := 0;
        while index[j] != k
          invariant 0 <= j <= place < |index| && index[place] == k
          decreases |index| - j
        {
          j := j + 1;
        }
        assert TakenFrom(rows[j], k, index, rows);
        infos := infos + [rows[j]];
      }
    }

    /** `_write_stations` for the edits or the creates of a validated request. */
    method WriteAction(
      map_: MapId, items: seq<Item>, inspections: seq<Inspection>, newIds: seq<StationId>,
      index: seq<nat>, edits: bool, writes: Table, ghost before: Table)
      returns (rows: seq<Info>)
      requires |inspections| == |items| && WellFormed(items) && Unused(newIds, before, items)
      requires forall j :: 0 <= j < |index| ==> index[j] < |items| && items[index[j]].id.Some? == edits
      requires forall id :: id in IdsOf(items, newIds, index) <==> id in writes
      requires writes == Writes(map_, items, inspections, newIds, edits, |items|)
      requires Prepared(table.rows, writes)
      modifies table
      ensures table.rows == old(table.rows) + writes
      ensures UniqueRobots(table.rows)
      ensures Answers(rows, index, map_, items, inspections, newIds)
    {
      hide Writes;
      hide Prepared;
      ghost var start := table.rows;
      var ids := IdsOf(items, newIds, index);
      NothingToWrite(start, writes);
      var saved := if edits then (writes, map[]) else (map[], writes);
      assert start + saved.0 + saved.1 == start + writes;
      var stored, _ := table.SaveMany(map_, ids, saved.0, saved.1);
      rows := stored.value;
      StoredRowsAnswer(before, map_, items, inspections, newIds, index, edits, table.rows, rows);
    }

    /**
     `save_docking_stations_in_transaction`.  An accepted request leaves exactly the
     requested stations on the map and every other map untouched; the unique
     constraint is never hit, and a refused request changes nothing.
     */
    method SaveStations(
      map_: MapId, items: seq<Item>, inspections: seq<Inspection>, robots: map<RobotId, Option<MapId>>,
      newIds: seq<StationId>)
      returns (result: Result)
      requires |inspections| == |items| && WellFormed(items) && Unused(newIds, table.rows, items)
      requires UniqueRobots(table.rows)
      modifies table
      ensures UniqueRobots(table.rows)
      ensures result.Saved? <==> Acceptable(old(table.rows), map_, items, inspections, robots)
      ensures
        result.Saved? ==>
          && IsSnapshot(old(table.rows), table.rows, map_, items, inspections, newIds)
          && InRequestOrder(result.stations, map_, items, inspections, newIds)
      ensures
        result.Rejected? ==>
          && table.rows == old(table.rows)
          && IsFirstError(old(table.rows), map_, items, inspections, robots, result.error)
      ensures
        result.Saved? ==>
          |result.stations| == |items| &&
          forall k :: 0 <= k < |items| ==>
            var info := result.stations[k];
            && StoredAs(table.rows, map_, items, inspections, newIds, k, info.id)
            && info.station == table.rows[info.id]
    {
      ghost var before := table.rows;
      var error := table.FindError(map_, items, inspections, robots);
      if error.Some? {
        return Rejected(error.value);
      }
      hide Writes;
      var editIndex, createIndex, edits, creates := Partition(map_, items, inspections, newIds);
      ItemsFormGoodBatch(before, map_, items, inspections, newIds, robots);
      Clear(map_, edits);
      BatchIsSnapshot(before, table.rows, map_, items, inspections, newIds, robots);
      ClearedIsPrepared(before, table.rows, map_, edits, creates);
      hide Prepared;
      hide Cleared;
      hide IsSnapshot;
      EditsLeavePrepared(table.rows, edits, creates);
      SplitNamesBatch(before, map_, items, inspections, newIds, editIndex, createIndex);
      var updated := WriteAction(map_, items, inspections, newIds, editIndex, true, edits, before);
      var created := WriteAction(map_, items, inspections, newIds, createIndex, false, creates, before);
      var stations := Merge(|items|, editIndex + createIndex, updated + created);
      AnswersInOrder(stations, map_, items, inspections, newIds, editIndex, createIndex, updated, created);
      AnswersAreStored(before, table.rows, map_, items, inspections, newIds, stations);
      return Saved(stations);
    }
  }

  /** A batch of one action can be given as either statement, with the other one empty. */
  lemma NothingToWrite(t: Table, writes: Table)
    requires Prepared(t, writes)
    ensures Prepared(t, map[]) && Prepared(t + map[], writes) && Prepared(t + writes, map[])
    ensures UniqueRobots(t + writes)
  {
    EveryPartIsUnique(t, writes, writes.Keys);
    assert Part(writes, writes.Keys) == writes && t + map[] == t;
  }

  lemma AnswersAreStored(
    t: Table, t': Table, map_: MapId, items: seq<Item>, inspections: seq<Inspection>, newIds: seq<StationId>,
    infos: seq<Info>)
    requires |items| == |newIds| == |inspections|
    requires IsSnapshot(t, t', map_, items, inspections, newIds)
    requires InRequestOrder(infos, map_, items, inspections, newIds)
    ensures
      forall k :: 0 <= k < |items| ==>
        && StoredAs(t', map_, items, inspections, newIds, k, infos[k].id)
        && infos[k].station == t'[infos[k].id]
  {
    SnapshotSpelledOut(t, t', map_, items, inspections, newIds);
  }

  lemma AnswersInOrder(
    infos: seq<Info>, map_: MapId, items: seq<Item>, inspections: seq<Inspection>, newIds: seq<StationId>,
    editIndex: seq<nat>, createIndex: seq<nat>, updated: seq<Info>, created: seq<Info>)
    requires |items| == |newIds| == |inspections| == |infos|
    requires Answers(updated, editIndex, map_, items, inspections, newIds)
    requires Answers(created, createIndex, map_, items, inspections, newIds)
    requires forall k :: 0 <= k < |infos| ==> TakenFrom(infos[k], k, editIndex + createIndex, updated + created)
    ensures InRequestOrder(infos, map_, items, inspections, newIds)
  {
    forall k | 0 <= k < |items|
      ensures infos[k] == Info(IdOf(items, newIds, k), Requested(map_, items[k], inspections[k]))
    {
      assert TakenFrom(infos[k], k, editIndex + createIndex, updated + created);
    }
  }
}
