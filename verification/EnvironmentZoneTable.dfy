/** The environment zone table and the map boundaries: the queries and the row-by-row writes. */
module EnvironmentZoneTable {
  import opened Options
  import opened EnvironmentZones

  /** Pairs of list positions in the order in which the overlap query returns them. */
  predicate PairBefore(a: nat, b: nat, p: nat, q: nat) {
    a < p || (a == p && b < q)
  }

  /** `e` reports the shape of the first listed item that has a bad or an uncovered polygon. */
  ghost predicate IsFirstBadShape(
    bs: Boundaries, map_: MapId, items: seq<Item>, index: seq<nat>, j: nat, e: Error)
    requires Indexes(items, index)
  {
    && j < |index| && !ShapeOk(bs, map_, items[index[j]])
    && (forall l :: 0 <= l < j ==> ShapeOk(bs, map_, items[index[l]]))
    && e ==
       if items[index[j]].valid && items[index[j]].cells != {} then OutsideBoundary(index[j])
       else BadGeometry(index[j])
  }

  ghost predicate IsLowestPair(items: seq<Item>, index: seq<nat>, a: nat, b: nat)
    requires Indexes(items, index)
  {
    && a < b < |index| && Overlap(items[index[a]].cells, items[index[b]].cells)
    && forall p, q :: 0 <= p < q < |index| && PairBefore(p, q, a, b) ==>
         !Overlap(items[index[p]].cells, items[index[q]].cells)
  }

  ghost predicate IsFirstHit(t: Zones, map_: MapId, items: seq<Item>, index: seq<nat>, j: nat)
    requires Indexes(items, index)
  {
    && j < |index| && HitsStored(t, map_, items, items[index[j]].cells)
    && forall l :: 0 <= l < j ==> !HitsStored(t, map_, items, items[index[l]].cells)
  }

  lemma OneMoreWrite(map_: MapId, items: seq<Item>, newIds: seq<ZoneId>, index: seq<nat>, n: nat)
    requires |items| == |newIds| && Indexes(items, index) && n < |index|
    ensures
      Writes(map_, items, newIds, index[..n + 1]) ==
      Writes(map_, items, newIds, index[..n])[IdOf(items, newIds, index[n]) := ZoneOf(map_, items[index[n]])]
  {
    assert index[..n + 1][..n] == index[..n];
  }

  lemma {:induction false} WritesOwnTheirMap(map_: MapId, items: seq<Item>, newIds: seq<ZoneId>, index: seq<nat>)
    requires |items| == |newIds| && Indexes(items, index)
    ensures forall i :: i in Writes(map_, items, newIds, index) ==> Writes(map_, items, newIds, index)[i].map_ == map_
  {
    if index != [] {
      WritesOwnTheirMap(map_, items, newIds, index[..|index| - 1]);
    }
  }

  /** The writes that hit a row of the map. */
  function Matching(t: Zones, map_: MapId, writes: Zones): Zones {
    map i | i in writes && OnMap(t, map_, i) :: writes[i]
  }

  lemma MatchingKeepsMap(t: Zones, map_: MapId, writes: Zones, id: ZoneId)
    requires forall i :: i in writes ==> writes[i].map_ == map_
    ensures OnMap(t + Matching(t, map_, writes), map_, id) <==> OnMap(t, map_, id)
  {
  }

  lemma OneMoreMatching(t: Zones, map_: MapId, writes: Zones, id: ZoneId, row: Zone)
    ensures
      t + Matching(t, map_, writes[id := row]) ==
      if OnMap(t, map_, id) then (t + Matching(t, map_, writes))[id := row] else t + Matching(t, map_, writes)
  {
  }

  class ZoneTable {
    var zones: Zones
    var boundaries: Boundaries

    constructor ()
      ensures zones == map[] && boundaries == map[]
    {
      zones, boundaries := map[], map[];
    }

    method DeleteAllForMap(map_: MapId)
      modifies `zones
      ensures zones == map i | i in old(zones) && old(zones)[i].map_ != map_ :: old(zones)[i]
    {
      zones := map i | i in zones && zones[i].map_ != map_ :: zones[i];
    }

    method DeleteMany(map_: MapId, ids: set<ZoneId>)
      modifies `zones
      ensures zones == map i | i in old(zones) && !(old(zones)[i].map_ == map_ && i in ids) :: old(zones)[i]
    {
      zones := map i | i in zones && !(zones[i].map_ == map_ && i in ids) :: zones[i];
    }

    /** One UPDATE per edited zone; an id that is not on the map matches no row. */
    method UpdateMany(map_: MapId, items: seq<Item>, ghost newIds: seq<ZoneId>, index: seq<nat>)
      requires |items| == |newIds| && Indexes(items, index)
      requires forall j :: 0 <= j < |index| ==> items[index[j]].id.Some?
      modifies `zones
      ensures zones == old(zones) + Matching(old(zones), map_, Writes(map_, items, newIds, index))
    {
      ghost var start := zones;
      for n := 0 to |index|
        invariant zones == start + Matching(start, map_, Writes(map_, items, newIds, index[..n]))
      {
        ghost var w := Writes(map_, items, newIds, index[..n]);
        OneMoreWrite(map_, items, newIds, index, n);
        WritesOwnTheirMap(map_, items, newIds, index[..n]);
        var item := items[index[n]];
        MatchingKeepsMap(start, map_, w, item.id.value);
        OneMoreMatching(start, map_, w, item.id.value, ZoneOf(map_, item));
        hide Matching;
        hide Writes;
        if OnMap(zones, map_, item.id.value) {
          zones := zones[item.id.value := ZoneOf(map_, item)];
        }
      }
      assert index[..|index|] == index;
    }

    /** One INSERT with a row for each created zone. */
    method CreateMany(map_: MapId, items: seq<Item>, newIds: seq<ZoneId>, index: seq<nat>)
      requires |items| == |newIds| && Indexes(items, index)
      requires forall j :: 0 <= j < |index| ==> items[index[j]].id.None?
      modifies `zones
      ensures zones == old(zones) + Writes(map_, items, newIds, index)
    {
      var inserted: Zones := map[];
      for n := 0 to |index|
        invariant zones == old(zones) && inserted == Writes(map_, items, newIds, index[..n])
      {
        OneMoreWrite(map_, items, newIds, index, n);
        inserted := inserted[newIds[index[n]] := ZoneOf(map_, items[index[n]])];
      }
      assert index[..|index|] == index;
      zones := zones + inserted;
    }

    /** A missing boundary, or the first listed item with a bad or an uncovered polygon. */
    method InspectCoverage(map_: MapId, items: seq<Item>, index: seq<nat>) returns (error: Option<Error>)
      requires Indexes(items, index) && index != []
      ensures error.None? <==> forall j :: 0 <= j < |index| ==> ShapeOk(boundaries, map_, items[index[j]])
      ensures error == Some(BoundaryMissing) <==> map_ !in boundaries
      ensures
        error.Some? && map_ in boundaries ==>
          exists j: nat :: IsFirstBadShape(boundaries, map_, items, index, j, error.value)
    {
      if map_ !in boundaries {
        assert !ShapeOk(boundaries, map_, items[index[0]]);
        return Some(BoundaryMissing);
      }
      for j := 0 to |index|
        invariant forall l :: 0 <= l < j ==> ShapeOk(boundaries, map_, items[index[l]])
      {
        var item := items[index[j]];
        if !(item.valid && item.cells != {}) {
          error := Some(BadGeometry(index[j]));
          assert IsFirstBadShape(boundaries, map_, items, index, j, error.value);
          return;
        }
        if !(item.cells <= boundaries[map_]) {
          error := Some(OutsideBoundary(index[j]));
          assert IsFirstBadShape(boundaries, map_, items, index, j, error.value);
          return;
        }
      }
      return None;
    }

    /** The lowest pair of list positions whose polygons overlap. */
    method FindBatchOverlap(items: seq<Item>, index: seq<nat>) returns (pair: Option<(nat, nat)>)
      requires Indexes(items, index)
      ensures pair.None? <==>
        forall p, q :: 0 <= p < q < |index| ==> !Overlap(items[index[p]].cells, items[index[q]].cells)
      ensures
        pair.Some? ==>
          IsLowestPair(items, index, pair.value.0, pair.value.1)
    {
      for a := 0 to |index|
        invariant forall p, q :: 0 <= p < q < |index| && p < a ==>
          !Overlap(items[index[p]].cells, items[index[q]].cells)
      {
        for b := a + 1 to |index|
          invariant forall q :: a < q < b ==> !Overlap(items[index[a]].cells, items[index[q]].cells)
        {
          if Overlap(items[index[a]].cells, items[index[b]].cells) {
            return Some((a, b));
          }
        }
      }
      return None;
    }

    /** The first listed item whose polygon overlaps a stored zone that the request does not name. */
    method FindExistingOverlap(map_: MapId, items: seq<Item>, index: seq<nat>) returns (position: Option<nat>)
      requires Indexes(items, index)
      ensures position.None? <==>
        forall j :: 0 <= j < |index| ==> !HitsStored(zones, map_, items, items[index[j]].cells)
      ensures
        position.Some? ==>
          IsFirstHit(zones, map_, items, index, position.value)
    {
      for j := 0 to |index|
        invariant forall l :: 0 <= l < j ==> !HitsStored(zones, map_, items, items[index[l]].cells)
      {
        if HitsStored(zones, map_, items, items[index[j]].cells) {
          return Some(j);
        }
      }
      return None;
    }

    /** Whether a stored zone of the map is not covered by the boundary stored now. */
    method HasOutsideBoundary(map_: MapId) returns (outside: bool)
      ensures outside <==> !CoveredOn(zones, boundaries, map_)
    {
      outside :=
        exists i :: i in zones && zones[i].map_ == map_ && !(map_ in boundaries && zones[i].cells <= boundaries[map_]);
    }
  }
}
