/** The zone save under the map lock: partition, validate, delete, update, insert. */
module EnvironmentZoneService {
  import opened Options
  import opened EnvironmentZones
  import opened EnvironmentZoneTable

  /** Positions of the first `n` items of a request, split by action. */
  ghost predicate Splits(items: seq<Item>, deletes: seq<nat>, creates: seq<nat>, edits: seq<nat>, n: nat)
    requires n <= |items|
  {
    && Indexes(items, deletes) && Indexes(items, creates) && Indexes(items, edits)
    && (forall k :: k in deletes <==> 0 <= k < n && items[k].toDelete)
    && (forall k :: k in creates <==> 0 <= k < n && !items[k].toDelete && items[k].id.None?)
    && (forall k :: k in edits <==> 0 <= k < n && !items[k].toDelete && items[k].id.Some?)
  }

  ghost predicate Ascending(index: seq<nat>, n: nat) {
    && (forall a :: 0 <= a < |index| ==> index[a] < n)
    && (forall a, b :: 0 <= a < b < |index| ==> index[a] < index[b])
  }

  lemma SplitSelects(items: seq<Item>, deletes: seq<nat>, creates: seq<nat>, edits: seq<nat>)
    requires Splits(items, deletes, creates, edits, |items|)
    ensures Selects(items, creates + edits) && Selects(items, edits + creates)
  {
  }

  lemma {:induction false} WritesOfBoth(
    map_: MapId, items: seq<Item>, newIds: seq<ZoneId>, first: seq<nat>, second: seq<nat>)
    requires |items| == |newIds| && Indexes(items, first) && Indexes(items, second)
    ensures
      Writes(map_, items, newIds, first + second) ==
      Writes(map_, items, newIds, first) + Writes(map_, items, newIds, second)
  {
    if second == [] {
      assert first + second == first;
    } else {
      var before := second[..|second| - 1];
      WritesOfBoth(map_, items, newIds, first, before);
      assert (first + second)[..|first + second| - 1] == first + before;
    }
  }

  /** No item is listed twice, so a test of all pairs of positions is a test of all pairs of items. */
  lemma PairsOfListAreAllPairs(items: seq<Item>, deletes: seq<nat>, creates: seq<nat>, edits: seq<nat>)
    requires Splits(items, deletes, creates, edits, |items|)
    requires
      var index := creates + edits;
      forall p, q :: 0 <= p < q < |index| ==> !Overlap(items[index[p]].cells, items[index[q]].cells)
    ensures BatchApart(items)
  {
    var index := creates + edits;
    forall k, l | 0 <= k < |items| && 0 <= l < |items| && k != l && !items[k].toDelete && !items[l].toDelete
      ensures !Overlap(items[k].cells, items[l].cells)
    {
      assert k in index && l in index;
      var p :| 0 <= p < |index| && index[p] == k;
      var q :| 0 <= q < |index| && index[q] == l;
      if p < q {
        assert !Overlap(items[index[p]].cells, items[index[q]].cells);
      } else {
        assert !Overlap(items[index[q]].cells, items[index[p]].cells);
        OverlapIsSymmetric(items[k].cells, items[l].cells);
      }
    }
  }

  /** The fault reported is the first of its kind in the order of validation, which is creates before edits. */
  ghost predicate IsFirstOfItsKind(
    t: Zones, bs: Boundaries, map_: MapId, items: seq<Item>, index: seq<nat>, e: Error)
    requires Indexes(items, index)
  {
    match e
    case StaleEdit(_) => false
    case BoundaryMissing => map_ !in bs
    case BadGeometry(_) => exists j: nat :: IsFirstBadShape(bs, map_, items, index, j, e)
    case OutsideBoundary(_) => exists j: nat :: IsFirstBadShape(bs, map_, items, index, j, e)
    case ItemsOverlap(k, l) =>
      exists a: nat, b: nat :: IsLowestPair(items, index, a, b) && k == index[a] && l == index[b]
    case OverlapsStored(k) => exists j: nat :: IsFirstHit(t, map_, items, index, j) && k == index[j]
  }

  /** The positions of the first `n` items that are created, or edited, in request order. */
  function Positions(items: seq<Item>, edits: bool, n: nat): (index: seq<nat>)
    requires n <= |items|
    ensures forall j :: 0 <= j < |index| ==> index[j] < n
  {
    if n == 0 then []
    else
      Positions(items, edits, n - 1) +
      if !items[n - 1].toDelete && items[n - 1].id.Some? == edits then [n - 1] else []
  }

  lemma OneMorePosition(items: seq<Item>, edits: bool, k: nat)
    requires k < |items|
    ensures
      Positions(items, edits, k + 1) ==
      if !items[k].toDelete && items[k].id.Some? == edits then Positions(items, edits, k) + [k]
      else Positions(items, edits, k)
  {
  }

  /** The positions are those of the items of this action, each once, in request order. */
  ghost predicate Lists(items: seq<Item>, edits: bool, n: nat, index: seq<nat>)
    requires n <= |items|
  {
    && (forall k :: k in index <==> 0 <= k < n && !items[k].toDelete && items[k].id.Some? == edits)
    && Ascending(index, n)
  }

  lemma ListsOneMore(items: seq<Item>, edits: bool, k: nat, before: seq<nat>)
    requires k < |items| && Lists(items, edits, k, before)
    ensures
      Lists(items, edits, k + 1, if !items[k].toDelete && items[k].id.Some? == edits then before + [k] else before)
  {
  }

  lemma {:induction false} PositionsSpelledOut(items: seq<Item>, edits: bool, n: nat)
    requires n <= |items|
    ensures Lists(items, edits, n, Positions(items, edits, n))
  {
    if n > 0 {
      PositionsSpelledOut(items, edits, n - 1);
      OneMorePosition(items, edits, n - 1);
      hide Positions;
      hide Lists;
      ListsOneMore(items, edits, n - 1, Positions(items, edits, n - 1));
    }
  }

  /** The positions of the deletions among the first `n` items, in request order. */
  ghost predicate ListsDeletes(items: seq<Item>, n: nat, index: seq<nat>)
    requires n <= |items|
  {
    (forall k :: k in index <==> 0 <= k < n && items[k].toDelete) && Ascending(index, n)
  }

  lemma ListsOneMoreDelete(items: seq<Item>, k: nat, before: seq<nat>)
    requires k < |items| && ListsDeletes(items, k, before)
    ensures ListsDeletes(items, k + 1, if items[k].toDelete then before + [k] else before)
  {
  }

  lemma ListsAreTheSplit(items: seq<Item>, deletes: seq<nat>, creates: seq<nat>, edits: seq<nat>)
    requires ListsDeletes(items, |items|, deletes)
    requires Lists(items, false, |items|, creates) && Lists(items, true, |items|, edits)
    ensures Splits(items, deletes, creates, edits, |items|)
    ensures Ascending(edits, |items|) && Ascending(creates, |items|) && Ascending(deletes, |items|)
  {
  }

  /** The order of validation. */
  function Order(items: seq<Item>): (index: seq<nat>)
    ensures Indexes(items, index)
  {
    Positions(items, false, |items|) + Positions(items, true, |items|)
  }

  lemma OrderOfPositions(items: seq<Item>)
    ensures Order(items) == Positions(items, false, |items|) + Positions(items, true, |items|)
    ensures Positions(items, false, 0) == [] && Positions(items, true, 0) == []
    ensures ListsDeletes(items, 0, [])
  {
  }

  /** What the three lists of a split hold. */
  lemma SplitListsActions(items: seq<Item>, deletes: seq<nat>, creates: seq<nat>, edits: seq<nat>)
    requires Splits(items, deletes, creates, edits, |items|)
    ensures Indexes(items, deletes) && Indexes(items, creates) && Indexes(items, edits)
    ensures forall k :: k in deletes <==> 0 <= k < |items| && items[k].toDelete
    ensures forall k :: k in edits ==> 0 <= k < |items| && !items[k].toDelete && items[k].id.Some?
    ensures forall j :: 0 <= j < |creates| ==> creates[j] < |items| && items[creates[j]].id.None?
  {
    assert forall j :: 0 <= j < |creates| ==> creates[j] in creates;
  }

  /** The answer to a request: none when it is acceptable, else the first fault of the first check that fails. */
  ghost predicate IsAnswer(t: Zones, bs: Boundaries, map_: MapId, items: seq<Item>, error: Option<Error>) {
    if error.None? then Acceptable(t, bs, map_, items)
    else
      && Genuine(t, bs, map_, items, error.value)
      && (!error.value.StaleEdit? ==> IsFirstOfItsKind(t, bs, map_, items, Order(items), error.value))
  }

  class EnvironmentZoneService {
    const table: ZoneTable

    constructor (table: ZoneTable)
      ensures this.table == table
    {
      this.table := table;
    }

    method Partition(items: seq<Item>) returns (deletes: seq<nat>, creates: seq<nat>, edits: seq<nat>)
      ensures Splits(items, deletes, creates, edits, |items|)
      ensures Ascending(edits, |items|) && Ascending(creates, |items|) && Ascending(deletes, |items|)
      ensures creates + edits == Order(items)
    {
      deletes, creates, edits := [], [], [];
      OrderOfPositions(items);
      hide *;
      for k := 0 to |items|
        invariant ListsDeletes(items, k, deletes)
        invariant creates == Positions(items, false, k) && edits == Positions(items, true, k)
      {
        OneMorePosition(items, false, k);
        OneMorePosition(items, true, k);
        ListsOneMoreDelete(items, k, deletes);
        if items[k].toDelete {
          deletes := deletes + [k];
        } else if items[k].id.None? {
          creates := creates + [k];
        } else {
          edits := edits + [k];
        }
      }
      PositionsSpelledOut(items, false, |items|);
      PositionsSpelledOut(items, true, |items|);
      ListsAreTheSplit(items, deletes, creates, edits);
    }

    /** The first edit whose zone is not on the map any more. */
    method MissingEdit(map_: MapId, items: seq<Item>, edits: seq<nat>) returns (missing: Option<nat>)
      requires Indexes(items, edits) && Ascending(edits, |items|)
      requires forall k :: k in edits <==> 0 <= k < |items| && !items[k].toDelete && items[k].id.Some?
      ensures missing.None? <==> EditsOk(table.zones, map_, items)
      ensures
        missing.Some? ==>
          && missing.value < |items| && !EditOk(table.zones, map_, items[missing.value])
          && forall l :: 0 <= l < missing.value ==> EditOk(table.zones, map_, items[l])
    {
      for j := 0 to |edits|
        invariant forall l :: 0 <= l < j ==> EditOk(table.zones, map_, items[edits[l]])
      {
        assert edits[j] in edits;
        if !OnMap(table.zones, map_, items[edits[j]].id.value) {
          forall l | 0 <= l < edits[j] ensures EditOk(table.zones, map_, items[l]) {
            if l in edits {
              var p :| 0 <= p < |edits| && edits[p] == l;
            }
          }
          return Some(edits[j]);
        }
      }
      forall k | 0 <= k < |items| ensures EditOk(table.zones, map_, items[k]) {
        if k in edits {
          var p :| 0 <= p < |edits| && edits[p] == k;
        }
      }
      return None;
    }

    /** Every check of the request, in the service's order, before any row is touched. */
    method FindError(
      map_: MapId, items: seq<Item>, deletes: seq<nat>, creates: seq<nat>, edits: seq<nat>)
      returns (error: Option<Error>)
      requires Splits(items, deletes, creates, edits, |items|)
      requires Ascending(edits, |items|) && Ascending(creates, |items|)
      ensures error.None? <==> Acceptable(table.zones, table.boundaries, map_, items)
      ensures error.Some? ==> Genuine(table.zones, table.boundaries, map_, items, error.value)
      ensures
        error.Some? && !error.value.StaleEdit? ==>
          Indexes(items, creates + edits) &&
          IsFirstOfItsKind(table.zones, table.boundaries, map_, items, creates + edits, error.value)
    {
      var missing := MissingEdit(map_, items, edits);
      if missing.Some? {
        return Some(StaleEdit(missing.value));
      }
      var index := creates + edits;
      SplitSelects(items, deletes, creates, edits);
      if index == [] {
        assert forall k :: 0 <= k < |items| ==> items[k].toDelete by {
          assert forall k :: 0 <= k < |items| && !items[k].toDelete ==> k in index;
        }
        return None;
      }
      assert index[0] in index;
      error := table.InspectCoverage(map_, items, index);
      if error == Some(BoundaryMissing) {
        return;
      }
      if error.Some? {
        ghost var j: nat :| IsFirstBadShape(table.boundaries, map_, items, index, j, error.value);
        assert index[j] in index;
        return;
      }
      assert ShapesOk(table.boundaries, map_, items) by {
        forall k | 0 <= k < |items| && !items[k].toDelete ensures ShapeOk(table.boundaries, map_, items[k]) {
          assert k in index;
        }
      }
      var pair := table.FindBatchOverlap(items, index);
      if pair.Some? {
        var (a, b) := pair.value;
        assert index[a] in index && index[b] in index;
        assert index[a] != index[b] by {
          assert a < |creates| <= b ==> index[a] in creates && index[b] in edits;
        }
        return Some(ItemsOverlap(index[a], index[b]));
      }
      PairsOfListAreAllPairs(items, deletes, creates, edits);
      var position := table.FindExistingOverlap(map_, items, index);
      if position.Some? {
        assert index[position.value] in index;
        return Some(OverlapsStored(index[position.value]));
      }
      assert StoredApart(table.zones, map_, items) by {
        forall k | 0 <= k < |items| && !items[k].toDelete
          ensures !HitsStored(table.zones, map_, items, items[k].cells)
        {
          assert k in index;
        }
      }
      return None;
    }

    /** Removes the zones the request deletes; those already gone are ignored. */
    method DeleteItems(map_: MapId, items: seq<Item>, deletes: seq<nat>)
      requires Indexes(items, deletes) && forall k :: k in deletes <==> 0 <= k < |items| && items[k].toDelete
      modifies table`zones
      ensures table.zones == Remaining(old(table.zones), map_, items)
    {
      var ids: set<ZoneId> :=
        set k | k in deletes && items[k].id.Some? && OnMap(table.zones, map_, items[k].id.value) :: items[k].id.value;
      ghost var before := table.zones;
      assert forall i :: i in ids ==> Deleted(items, i);
      assert forall i :: OnMap(before, map_, i) && Deleted(items, i) ==> i in ids by {
        forall i | OnMap(before, map_, i) && Deleted(items, i) ensures i in ids {
          var k :| 0 <= k < |items| && items[k].id == Some(i) && items[k].toDelete;
          assert k in deletes;
        }
      }
      if ids != {} {
        table.DeleteMany(map_, ids);
      }
    }

    /** The statements of an accepted request: delete, then update, then insert. */
    method Apply(
      map_: MapId, items: seq<Item>, newIds: seq<ZoneId>, deletes: seq<nat>, creates: seq<nat>, edits: seq<nat>)
      requires WellFormed(items) && |newIds| == |items|
      requires Splits(items, deletes, creates, edits, |items|)
      requires EditsOk(table.zones, map_, items)
      modifies table`zones
      ensures
        table.zones == Remaining(old(table.zones), map_, items) + Writes(map_, items, newIds, edits + creates)
    {
      ghost var before := table.zones;
      SplitListsActions(items, deletes, creates, edits);
      hide *;
      DeleteItems(map_, items, deletes);
      EditsSurvive(before, map_, items, edits);
      WritesOfBoth(map_, items, newIds, edits, creates);
      ghost var kept := table.zones;
      WriteEdits(map_, items, newIds, edits);
      WriteCreates(map_, items, newIds, creates);
      assert table.zones == kept + Writes(map_, items, newIds, edits) + Writes(map_, items, newIds, creates);
    }

    method WriteEdits(map_: MapId, items: seq<Item>, newIds: seq<ZoneId>, edits: seq<nat>)
      requires |newIds| == |items| && Indexes(items, edits)
      requires forall j :: 0 <= j < |edits| ==>
        items[edits[j]].id.Some? && OnMap(table.zones, map_, items[edits[j]].id.value)
      modifies table`zones
      ensures table.zones == old(table.zones) + Writes(map_, items, newIds, edits)
    {
      if edits != [] {
        EditsMatch(table.zones, map_, items, newIds, edits);
        table.UpdateMany(map_, items, newIds, edits);
      }
    }

    method WriteCreates(map_: MapId, items: seq<Item>, newIds: seq<ZoneId>, creates: seq<nat>)
      requires |newIds| == |items| && Indexes(items, creates)
      requires forall j :: 0 <= j < |creates| ==> items[creates[j]].id.None?
      modifies table`zones
      ensures table.zones == old(table.zones) + Writes(map_, items, newIds, creates)
    {
      if creates != [] {
        table.CreateMany(map_, items, newIds, creates);
      }
    }

    /**
     `save_environment_zones_in_transaction`.  An empty request clears the map; any
     other is accepted exactly when it is acceptable, and then the stored zones stay
     apart and covered.  A refused request changes nothing.
     */
    method SaveZones(map_: MapId, items: seq<Item>, newIds: seq<ZoneId>) returns (error: Option<Error>)
      requires WellFormed(items) && Unused(newIds, table.zones, items)
      requires Disjoint(table.zones)
      modifies table`zones
      ensures error.None? <==> Acceptable(old(table.zones), table.boundaries, map_, items)
      ensures IsAnswer(old(table.zones), table.boundaries, map_, items, error)
      ensures
        error.Some? ==>
          table.zones == old(table.zones) && Genuine(table.zones, table.boundaries, map_, items, error.value)
      ensures
        error.None? && items == [] ==>
          table.zones == map i | i in old(table.zones) && old(table.zones)[i].map_ != map_ :: old(table.zones)[i]
      ensures error.None? && items != [] ==> IsSaved(old(table.zones), table.zones, map_, items, newIds)
      ensures Disjoint(table.zones)
      ensures
        forall m ::
          CoveredOn(old(table.zones), table.boundaries, m) ==> CoveredOn(table.zones, table.boundaries, m)
    {
      if items == [] {
        table.DeleteAllForMap(map_);
        return None;
      }
      ghost var before := table.zones;
      var deletes, creates, edits := Partition(items);
      error := FindError(map_, items, deletes, creates, edits);
      if error.Some? {
        return;
      }
      SplitSelects(items, deletes, creates, edits);
      Apply(map_, items, newIds, deletes, creates, edits);
      hide *;
      ghost var index := edits + creates;
      AcceptedEditsExist(before, table.boundaries, map_, items);
      SaveKeepsDisjoint(before, table.boundaries, map_, items, newIds, index);
      SaveCoversWrites(before, table.boundaries, map_, items, newIds, index);
      SaveIsSaved(before, map_, items, newIds, index);
    }
  }

  lemma AcceptedEditsExist(t: Zones, bs: Boundaries, map_: MapId, items: seq<Item>)
    requires Acceptable(t, bs, map_, items)
    ensures EditsOk(t, map_, items)
  {
  }

  /** Every edit of a validated request hits its row. */
  lemma {:induction false} EditsMatch(
    t: Zones, map_: MapId, items: seq<Item>, newIds: seq<ZoneId>, edits: seq<nat>)
    requires |items| == |newIds| && Indexes(items, edits)
    requires forall j :: 0 <= j < |edits| ==>
      items[edits[j]].id.Some? && OnMap(t, map_, items[edits[j]].id.value)
    ensures Matching(t, map_, Writes(map_, items, newIds, edits)) == Writes(map_, items, newIds, edits)
  {
    var w := Writes(map_, items, newIds, edits);
    forall i | i in w ensures OnMap(t, map_, i) {
      var k := RowIsAnItem(map_, items, newIds, edits, i);
    }
  }

  /** Deleting the dropped zones leaves every zone the request edits. */
  lemma EditsSurvive(t: Zones, map_: MapId, items: seq<Item>, edits: seq<nat>)
    requires WellFormed(items) && EditsOk(t, map_, items) && Indexes(items, edits)
    requires forall k :: k in edits ==> !items[k].toDelete && items[k].id.Some?
    ensures
      forall j :: 0 <= j < |edits| ==>
        items[edits[j]].id.Some? && OnMap(Remaining(t, map_, items), map_, items[edits[j]].id.value)
  {
    forall j | 0 <= j < |edits|
      ensures items[edits[j]].id.Some? && OnMap(Remaining(t, map_, items), map_, items[edits[j]].id.value)
    {
      var k := edits[j];
      assert k in edits && EditOk(t, map_, items[k]);
      assert !Deleted(items, items[k].id.value);
    }
  }
}
