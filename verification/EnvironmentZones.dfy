/**
 Saving the environment zones of a map.  A polygon is the set of grid cells it
 covers: two polygons overlap when they share a cell, touching is allowed, and a
 boundary covers a polygon that is a subset of it.
 */
module EnvironmentZones {
  import opened Options

  type ZoneId = nat
  type MapId = nat
  type Cells = set<(int, int)>

  datatype Kind = Cleaning | Forbidden | Slow

  datatype Zone = Zone(map_: MapId, kind: Kind, cells: Cells)

  type Zones = map<ZoneId, Zone>
  type Boundaries = map<MapId, Cells>

  /** `valid` is PostGIS's verdict on the submitted topology. */
  datatype Item = Item(id: Option<ZoneId>, kind: Kind, cells: Cells, valid: bool, toDelete: bool)

  datatype Error =
    | StaleEdit(index: nat)
    | BoundaryMissing
    | BadGeometry(index: nat)
    | OutsideBoundary(index: nat)
    | ItemsOverlap(first: nat, second: nat)
    | OverlapsStored(index: nat)

  predicate Overlap(a: Cells, b: Cells) {
    exists c :: c in a && c in b
  }

  // ---------------------------------------------------------------- the layout invariant

  /** Zones of one map share no interior. */
  ghost predicate Disjoint(t: Zones) {
    forall i, j :: i in t && j in t && i != j && t[i].map_ == t[j].map_ ==> !Overlap(t[i].cells, t[j].cells)
  }

  /** Every zone of this map lies within the boundary, so there is one. */
  ghost predicate CoveredOn(t: Zones, bs: Boundaries, map_: MapId) {
    forall i :: i in t && t[i].map_ == map_ ==> map_ in bs && t[i].cells <= bs[map_]
  }

  ghost predicate LayoutOk(t: Zones, bs: Boundaries) {
    Disjoint(t) && forall m :: CoveredOn(t, bs, m)
  }

  // ---------------------------------------------------------------- a request

  predicate OnMap(t: Zones, map_: MapId, id: ZoneId) {
    id in t && t[id].map_ == map_
  }

  /** What the request schema checks: deletions name a zone and no id occurs twice. */
  ghost predicate WellFormed(items: seq<Item>) {
    && (forall k :: 0 <= k < |items| && items[k].toDelete ==> items[k].id.Some?)
    && (forall k, l :: 0 <= k < l < |items| && items[k].id.Some? ==> items[k].id != items[l].id)
  }

  ghost predicate Unused(newIds: seq<ZoneId>, t: Zones, items: seq<Item>) {
    && |newIds| == |items|
    && (forall k, l :: 0 <= k < l < |newIds| ==> newIds[k] != newIds[l])
    && (forall k :: 0 <= k < |newIds| ==> newIds[k] !in t)
    && (forall k, l :: 0 <= k < |newIds| && 0 <= l < |items| ==> items[l].id != Some(newIds[k]))
  }

  function IdOf(items: seq<Item>, newIds: seq<ZoneId>, k: nat): ZoneId
    requires k < |items| == |newIds|
  {
    if items[k].id.Some? then items[k].id.value else newIds[k]
  }

  predicate Submitted(items: seq<Item>, id: ZoneId) {
    exists k :: 0 <= k < |items| && items[k].id == Some(id)
  }

  predicate Deleted(items: seq<Item>, id: ZoneId) {
    exists k :: 0 <= k < |items| && items[k].id == Some(id) && items[k].toDelete
  }

  predicate HitsStored(t: Zones, map_: MapId, items: seq<Item>, cells: Cells) {
    exists i :: i in t && t[i].map_ == map_ && !Submitted(items, i) && Overlap(cells, t[i].cells)
  }

  /** An edit names a zone of the map. */
  predicate EditOk(t: Zones, map_: MapId, item: Item) {
    item.id.Some? && !item.toDelete ==> OnMap(t, map_, item.id.value)
  }

  predicate ShapeOk(bs: Boundaries, map_: MapId, item: Item) {
    map_ in bs && item.valid && item.cells != {} && item.cells <= bs[map_]
  }

  ghost predicate EditsOk(t: Zones, map_: MapId, items: seq<Item>) {
    forall k :: 0 <= k < |items| ==> EditOk(t, map_, items[k])
  }

  ghost predicate ShapesOk(bs: Boundaries, map_: MapId, items: seq<Item>) {
    forall k :: 0 <= k < |items| && !items[k].toDelete ==> ShapeOk(bs, map_, items[k])
  }

  ghost predicate BatchApart(items: seq<Item>) {
    forall k, l :: 0 <= k < |items| && 0 <= l < |items| && k != l && !items[k].toDelete && !items[l].toDelete ==>
      !Overlap(items[k].cells, items[l].cells)
  }

  ghost predicate StoredApart(t: Zones, map_: MapId, items: seq<Item>) {
    forall k :: 0 <= k < |items| && !items[k].toDelete ==> !HitsStored(t, map_, items, items[k].cells)
  }

  /** The request is one the service accepts. */
  ghost predicate Acceptable(t: Zones, bs: Boundaries, map_: MapId, items: seq<Item>) {
    EditsOk(t, map_, items) && ShapesOk(bs, map_, items) && BatchApart(items) && StoredApart(t, map_, items)
  }

  /** The reported error names an item that has this fault, and no earlier check failed. */
  ghost predicate Genuine(t: Zones, bs: Boundaries, map_: MapId, items: seq<Item>, e: Error) {
    match e
    case StaleEdit(k) =>
      k < |items| && !EditOk(t, map_, items[k]) && forall l :: 0 <= l < k ==> EditOk(t, map_, items[l])
    case BoundaryMissing =>
      map_ !in bs && EditsOk(t, map_, items) && exists k :: 0 <= k < |items| && !items[k].toDelete
    case BadGeometry(k) =>
      && EditsOk(t, map_, items) && map_ in bs
      && k < |items| && !items[k].toDelete && (!items[k].valid || items[k].cells == {})
    case OutsideBoundary(k) =>
      && EditsOk(t, map_, items) && map_ in bs
      && k < |items| && !items[k].toDelete && !(items[k].cells <= bs[map_])
    case ItemsOverlap(k, l) =>
      && EditsOk(t, map_, items) && ShapesOk(bs, map_, items)
      && k < |items| && l < |items| && k != l && !items[k].toDelete && !items[l].toDelete
      && Overlap(items[k].cells, items[l].cells)
    case OverlapsStored(k) =>
      && EditsOk(t, map_, items) && ShapesOk(bs, map_, items) && BatchApart(items)
      && k < |items| && !items[k].toDelete && HitsStored(t, map_, items, items[k].cells)
  }

  // ---------------------------------------------------------------- the rows written

  function ZoneOf(map_: MapId, item: Item): Zone {
    Zone(map_, item.kind, item.cells)
  }

  predicate Indexes(items: seq<Item>, index: seq<nat>) {
    forall j :: 0 <= j < |index| ==> index[j] < |items|
  }

  /** The rows of the listed items, written one after the other. */
  function Writes(map_: MapId, items: seq<Item>, newIds: seq<ZoneId>, index: seq<nat>): Zones
    requires |items| == |newIds| && Indexes(items, index)
  {
    if index == [] then map[]
    else
      var k := index[|index| - 1];
      Writes(map_, items, newIds, index[..|index| - 1])[IdOf(items, newIds, k) := ZoneOf(map_, items[k])]
  }

  lemma IdsAreDistinct(items: seq<Item>, newIds: seq<ZoneId>, t: Zones)
    requires WellFormed(items) && Unused(newIds, t, items)
    ensures
      forall k, l :: 0 <= k < |items| && 0 <= l < |items| && k != l ==>
        IdOf(items, newIds, k) != IdOf(items, newIds, l)
  {
    forall k, l | 0 <= k < |items| && 0 <= l < |items| && k != l
      ensures IdOf(items, newIds, k) != IdOf(items, newIds, l)
    {
      var a, b := if k < l then k else l, if k < l then l else k;
      assert IdOf(items, newIds, a) != IdOf(items, newIds, b);
    }
  }

  ghost predicate Names(items: seq<Item>, newIds: seq<ZoneId>, k: nat, id: ZoneId)
    requires |items| == |newIds|
  {
    k < |items| && IdOf(items, newIds, k) == id
  }

  /** Row `id` is the one item `k` of the list asks for. */
  ghost predicate Gives(map_: MapId, items: seq<Item>, newIds: seq<ZoneId>, k: nat, id: ZoneId, row: Zone)
    requires |items| == |newIds|
  {
    Names(items, newIds, k, id) && row == ZoneOf(map_, items[k])
  }

  lemma {:induction false} RowIsAnItem(
    map_: MapId, items: seq<Item>, newIds: seq<ZoneId>, index: seq<nat>, id: ZoneId) returns (k: nat)
    requires |items| == |newIds| && Indexes(items, index) && id in Writes(map_, items, newIds, index)
    ensures k in index && Gives(map_, items, newIds, k, id, Writes(map_, items, newIds, index)[id])
  {
    var before, last := index[..|index| - 1], index[|index| - 1];
    assert index == before + [last];
    if id == IdOf(items, newIds, last) {
      k := last;
    } else {
      assert Writes(map_, items, newIds, index)[id] == Writes(map_, items, newIds, before)[id];
      k := RowIsAnItem(map_, items, newIds, before, id);
    }
  }

  lemma {:induction false} ItemIsARow(
    t: Zones, map_: MapId, items: seq<Item>, newIds: seq<ZoneId>, index: seq<nat>, k: nat)
    requires WellFormed(items) && Unused(newIds, t, items) && Indexes(items, index) && k in index
    ensures
      var w, id := Writes(map_, items, newIds, index), IdOf(items, newIds, k);
      id in w && w[id] == ZoneOf(map_, items[k])
  {
    var before, last := index[..|index| - 1], index[|index| - 1];
    assert index == before + [last];
    if k != last {
      IdsAreDistinct(items, newIds, t);
      ItemIsARow(t, map_, items, newIds, before, k);
    }
  }

  lemma WritesAreTheItems(
    t: Zones, map_: MapId, items: seq<Item>, newIds: seq<ZoneId>, index: seq<nat>)
    requires WellFormed(items) && Unused(newIds, t, items) && Indexes(items, index)
    ensures
      var w := Writes(map_, items, newIds, index);
      && (forall k :: k in index ==> IdOf(items, newIds, k) in w && w[IdOf(items, newIds, k)] == ZoneOf(map_, items[k]))
      && (forall id :: id in w ==>
            exists k :: k in index && Names(items, newIds, k, id) && w[id] == ZoneOf(map_, items[k]))
  {
    var w := Writes(map_, items, newIds, index);
    hide Writes;
    forall k | k in index ensures IdOf(items, newIds, k) in w && w[IdOf(items, newIds, k)] == ZoneOf(map_, items[k]) {
      ItemIsARow(t, map_, items, newIds, index, k);
    }
    forall id | id in w
      ensures exists k :: k in index && Names(items, newIds, k, id) && w[id] == ZoneOf(map_, items[k])
    {
      var k := RowIsAnItem(map_, items, newIds, index, id);
    }
  }

  /** The stored zones after deleting what the request deletes. */
  function Remaining(t: Zones, map_: MapId, items: seq<Item>): Zones {
    map i | i in t && !(t[i].map_ == map_ && Deleted(items, i)) :: t[i]
  }

  /** The list of items that are written: every one that is not a deletion. */
  ghost predicate Selects(items: seq<Item>, index: seq<nat>) {
    && Indexes(items, index)
    && forall k :: k in index <==> 0 <= k < |items| && !items[k].toDelete
  }

  /** An accepted request keeps the zones of every map apart. */
  lemma SaveKeepsDisjoint(
    t: Zones, bs: Boundaries, map_: MapId, items: seq<Item>, newIds: seq<ZoneId>, index: seq<nat>)
    requires WellFormed(items) && Unused(newIds, t, items) && Selects(items, index)
    requires Disjoint(t) && Acceptable(t, bs, map_, items)
    ensures Disjoint(Remaining(t, map_, items) + Writes(map_, items, newIds, index))
  {
    WritesAreTheItems(t, map_, items, newIds, index);
    var w := Writes(map_, items, newIds, index);
    var t' := Remaining(t, map_, items) + w;
    hide Writes;
    forall i, j | i in t' && j in t' && i != j && t'[i].map_ == t'[j].map_ ensures !Overlap(t'[i].cells, t'[j].cells) {
      if i in w && j in w {
        var k :| k in index && Names(items, newIds, k, i) && w[i] == ZoneOf(map_, items[k]);
        var l :| l in index && Names(items, newIds, l, j) && w[j] == ZoneOf(map_, items[l]);
      } else if i in w {
        WriteMissesStored(t, bs, map_, items, newIds, index, i, j);
      } else if j in w {
        WriteMissesStored(t, bs, map_, items, newIds, index, j, i);
        OverlapIsSymmetric(t'[i].cells, t'[j].cells);
      }
    }
  }

  lemma OverlapIsSymmetric(a: Cells, b: Cells)
    ensures Overlap(a, b) <==> Overlap(b, a)
  {
  }

  /** A zone of the map that is neither deleted nor written is one the request does not name. */
  lemma KeptIsNotSubmitted(
    t: Zones, map_: MapId, items: seq<Item>, newIds: seq<ZoneId>, index: seq<nat>, j: ZoneId)
    requires WellFormed(items) && Unused(newIds, t, items) && Selects(items, index)
    requires j !in Writes(map_, items, newIds, index) && j in Remaining(t, map_, items) && t[j].map_ == map_
    ensures !Submitted(items, j)
  {
    WritesAreTheItems(t, map_, items, newIds, index);
    var w := Writes(map_, items, newIds, index);
    hide Writes;
    forall l | 0 <= l < |items| ensures items[l].id != Some(j) {
      assert !items[l].toDelete ==> l in index && IdOf(items, newIds, l) in w;
      assert items[l].toDelete && items[l].id == Some(j) ==> Deleted(items, j);
    }
  }

  /** A written zone touches no zone of the map that stays as it is. */
  lemma WriteMissesStored(
    t: Zones, bs: Boundaries, map_: MapId, items: seq<Item>, newIds: seq<ZoneId>, index: seq<nat>, i: ZoneId, j: ZoneId)
    requires WellFormed(items) && Unused(newIds, t, items) && Selects(items, index)
    requires Acceptable(t, bs, map_, items)
    requires
      var w := Writes(map_, items, newIds, index);
      i in w && j !in w && j in Remaining(t, map_, items) && t[j].map_ == map_
    ensures !Overlap(Writes(map_, items, newIds, index)[i].cells, t[j].cells)
  {
    WritesAreTheItems(t, map_, items, newIds, index);
    KeptIsNotSubmitted(t, map_, items, newIds, index, j);
    var w := Writes(map_, items, newIds, index);
    hide Writes;
    var k :| k in index && Names(items, newIds, k, i) && w[i] == ZoneOf(map_, items[k]);
    assert !HitsStored(t, map_, items, items[k].cells);
  }

  /** Written zones are covered by the boundary the map has now; other maps are as before. */
  lemma SaveCoversWrites(
    t: Zones, bs: Boundaries, map_: MapId, items: seq<Item>, newIds: seq<ZoneId>, index: seq<nat>)
    requires WellFormed(items) && Unused(newIds, t, items) && Selects(items, index)
    requires Acceptable(t, bs, map_, items)
    ensures
      var t' := Remaining(t, map_, items) + Writes(map_, items, newIds, index);
      && (CoveredOn(t, bs, map_) ==> CoveredOn(t', bs, map_))
      && (forall m :: m != map_ && CoveredOn(t, bs, m) ==> CoveredOn(t', bs, m))
  {
    WritesAreTheItems(t, map_, items, newIds, index);
  }

  /** What a successful save leaves: deletions gone, edits in place, creates under new ids, the rest untouched. */
  ghost predicate IsSaved(t: Zones, t': Zones, map_: MapId, items: seq<Item>, newIds: seq<ZoneId>)
    requires |items| == |newIds|
  {
    && (forall i :: i in t && (t[i].map_ != map_ || !Submitted(items, i)) ==> i in t' && t'[i] == t[i])
    && (forall k :: 0 <= k < |items| && !items[k].toDelete ==>
          IdOf(items, newIds, k) in t' && t'[IdOf(items, newIds, k)] == ZoneOf(map_, items[k]))
    && (forall k :: 0 <= k < |items| && items[k].toDelete && items[k].id.Some? ==> !OnMap(t', map_, items[k].id.value))
    && NothingElse(t, t', map_, items, newIds)
  }

  /** Each stored zone was there before or is one of the items. */
  ghost predicate NothingElse(t: Zones, t': Zones, map_: MapId, items: seq<Item>, newIds: seq<ZoneId>)
    requires |items| == |newIds|
  {
    && (forall i :: i in t' && t'[i].map_ != map_ ==> i in t && t[i] == t'[i])
    && (forall i :: OnMap(t', map_, i) ==>
          || (OnMap(t, map_, i) && !Submitted(items, i))
          || exists k :: 0 <= k < |items| && !items[k].toDelete && Names(items, newIds, k, i))
  }

  /** Every row written is a new one or replaces a stored zone of this map that the request names. */
  lemma WritesStayOnMap(
    t: Zones, map_: MapId, items: seq<Item>, newIds: seq<ZoneId>, index: seq<nat>)
    requires WellFormed(items) && Unused(newIds, t, items) && Selects(items, index) && EditsOk(t, map_, items)
    ensures
      forall i :: i in Writes(map_, items, newIds, index) ==>
        i in newIds || (OnMap(t, map_, i) && Submitted(items, i))
  {
    WritesAreTheItems(t, map_, items, newIds, index);
    var w := Writes(map_, items, newIds, index);
    hide Writes;
    forall i | i in w ensures i in newIds || (OnMap(t, map_, i) && Submitted(items, i)) {
      var k :| k in index && Names(items, newIds, k, i) && w[i] == ZoneOf(map_, items[k]);
      assert EditOk(t, map_, items[k]);
    }
  }

  /** No item writes the zone another one deletes. */
  lemma DeletedIsNotWritten(
    t: Zones, map_: MapId, items: seq<Item>, newIds: seq<ZoneId>, index: seq<nat>, k: nat)
    requires WellFormed(items) && Unused(newIds, t, items) && Selects(items, index)
    requires k < |items| && items[k].toDelete && items[k].id.Some?
    ensures items[k].id.value !in Writes(map_, items, newIds, index)
  {
    WritesAreTheItems(t, map_, items, newIds, index);
    IdsAreDistinct(items, newIds, t);
    var w, id := Writes(map_, items, newIds, index), items[k].id.value;
    hide Writes;
    assert IdOf(items, newIds, k) == id;
    assert forall l :: l in index ==> !Names(items, newIds, l, id);
  }

  lemma SaveAddsNothingElse(
    t: Zones, map_: MapId, items: seq<Item>, newIds: seq<ZoneId>, index: seq<nat>)
    requires WellFormed(items) && Unused(newIds, t, items) && Selects(items, index) && EditsOk(t, map_, items)
    ensures NothingElse(t, Remaining(t, map_, items) + Writes(map_, items, newIds, index), map_, items, newIds)
  {
    WritesAreTheItems(t, map_, items, newIds, index);
    var w, kept := Writes(map_, items, newIds, index), Remaining(t, map_, items);
    var t' := kept + w;
    hide Writes;
    hide EditsOk;
    forall i | i in w
      ensures w[i].map_ == map_
      ensures exists k :: 0 <= k < |items| && !items[k].toDelete && Names(items, newIds, k, i)
    {
      var k :| k in index && Names(items, newIds, k, i) && w[i] == ZoneOf(map_, items[k]);
    }
    forall i | OnMap(t', map_, i) && i !in w ensures OnMap(t, map_, i) && !Submitted(items, i) {
      KeptIsNotSubmitted(t, map_, items, newIds, index, i);
    }
  }

  lemma SaveIsSaved(
    t: Zones, map_: MapId, items: seq<Item>, newIds: seq<ZoneId>, index: seq<nat>)
    requires WellFormed(items) && Unused(newIds, t, items) && Selects(items, index) && EditsOk(t, map_, items)
    ensures IsSaved(t, Remaining(t, map_, items) + Writes(map_, items, newIds, index), map_, items, newIds)
  {
    WritesAreTheItems(t, map_, items, newIds, index);
    WritesStayOnMap(t, map_, items, newIds, index);
    var w, kept := Writes(map_, items, newIds, index), Remaining(t, map_, items);
    var t' := kept + w;
    hide Writes;
    hide EditsOk;
    hide WellFormed;
    forall i | i in t && (t[i].map_ != map_ || !Submitted(items, i)) ensures i in t' && t'[i] == t[i] {
      assert Deleted(items, i) ==> Submitted(items, i);
      assert i !in newIds;
    }
    forall k | 0 <= k < |items| && items[k].toDelete && items[k].id.Some?
      ensures !OnMap(t', map_, items[k].id.value)
    {
      DeletedIsNotWritten(t, map_, items, newIds, index, k);
      assert Deleted(items, items[k].id.value);
    }
    hide NothingElse;
    SaveAddsNothingElse(t, map_, items, newIds, index);
  }
}
