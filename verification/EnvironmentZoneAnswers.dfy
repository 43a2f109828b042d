/**
 What the answer to a zone save depends on, and what a save leaves, in terms of cells
 and stored rows alone.
 */
module EnvironmentZoneAnswers {
  import opened Options
  import opened EnvironmentZones
  import opened EnvironmentZoneTable
  import opened EnvironmentZoneService

  /** The request names this zone, to edit or to delete it. */
  ghost predicate NamedBy(items: seq<Item>, id: ZoneId) {
    exists k :: 0 <= k < |items| && items[k].id == Some(id)
  }

  /** A stored zone of this map that the request leaves alone shares a cell with these. */
  ghost predicate SharesACell(t: Zones, map_: MapId, items: seq<Item>, cells: Cells) {
    exists i, c :: i in t && t[i].map_ == map_ && !NamedBy(items, i) && c in t[i].cells && c in cells
  }

  lemma OverlapIsASharedCell(a: Cells, b: Cells)
    ensures Overlap(a, b) <==> a * b != {}
  {
    if Overlap(a, b) {
      var c :| c in a && c in b;
      assert c in a * b;
    }
  }

  lemma HitIsASharedCell(t: Zones, map_: MapId, items: seq<Item>, cells: Cells)
    ensures HitsStored(t, map_, items, cells) <==> SharesACell(t, map_, items, cells)
  {
    if HitsStored(t, map_, items, cells) {
      var i :| i in t && t[i].map_ == map_ && !Submitted(items, i) && Overlap(cells, t[i].cells);
      var c :| c in cells && c in t[i].cells;
      assert !NamedBy(items, i);
    } else if SharesACell(t, map_, items, cells) {
      var i, c :| i in t && t[i].map_ == map_ && !NamedBy(items, i) && c in t[i].cells && c in cells;
      assert Overlap(cells, t[i].cells) && !Submitted(items, i);
    }
  }

  /** One item passes on its own. */
  ghost predicate ItemIsFine(t: Zones, bs: Boundaries, map_: MapId, items: seq<Item>, item: Item) {
    if item.toDelete then true
    else
      && (item.id.Some? ==> item.id.value in t && t[item.id.value].map_ == map_)
      && map_ in bs && item.valid && item.cells != {} && (forall c :: c in item.cells ==> c in bs[map_])
      && !SharesACell(t, map_, items, item.cells)
  }

  /** A request is accepted exactly when every item that is not a deletion passes and no two of them share a cell. */
  lemma AcceptableSpelledOut(t: Zones, bs: Boundaries, map_: MapId, items: seq<Item>)
    ensures
      Acceptable(t, bs, map_, items) <==>
      && (forall k :: 0 <= k < |items| ==> ItemIsFine(t, bs, map_, items, items[k]))
      && (forall k, l :: 0 <= k < |items| && 0 <= l < |items| && k != l && !items[k].toDelete && !items[l].toDelete ==>
            items[k].cells * items[l].cells == {})
  {
    forall k | 0 <= k < |items|
      ensures
        ItemIsFine(t, bs, map_, items, items[k]) <==>
        && EditOk(t, map_, items[k])
        && (!items[k].toDelete ==> ShapeOk(bs, map_, items[k]) && !HitsStored(t, map_, items, items[k].cells))
    {
      HitIsASharedCell(t, map_, items, items[k].cells);
    }
    forall k, l | 0 <= k < |items| && 0 <= l < |items|
      ensures Overlap(items[k].cells, items[l].cells) <==> items[k].cells * items[l].cells != {}
    {
      OverlapIsASharedCell(items[k].cells, items[l].cells);
    }
    hide Overlap;
    hide HitsStored;
    hide ItemIsFine;
    hide EditOk;
    hide ShapeOk;
  }

  /** What a reported error says of the request. */
  ghost predicate Justified(t: Zones, bs: Boundaries, map_: MapId, items: seq<Item>, e: Error) {
    match e
    case StaleEdit(k) =>
      && k < |items| && !items[k].toDelete && items[k].id.Some?
      && !(items[k].id.value in t && t[items[k].id.value].map_ == map_)
    case BoundaryMissing => map_ !in bs && exists k :: 0 <= k < |items| && !items[k].toDelete
    case BadGeometry(k) => k < |items| && !items[k].toDelete && (!items[k].valid || items[k].cells == {})
    case OutsideBoundary(k) =>
      k < |items| && !items[k].toDelete && map_ in bs && exists c :: c in items[k].cells && c !in bs[map_]
    case ItemsOverlap(k, l) =>
      && k < |items| && l < |items| && k != l && !items[k].toDelete && !items[l].toDelete
      && items[k].cells * items[l].cells != {}
    case OverlapsStored(k) => k < |items| && !items[k].toDelete && SharesACell(t, map_, items, items[k].cells)
  }

  lemma ErrorSpelledOut(t: Zones, bs: Boundaries, map_: MapId, items: seq<Item>, e: Error)
    requires Genuine(t, bs, map_, items, e)
    ensures Justified(t, bs, map_, items, e)
  {
    match e
    case ItemsOverlap(k, l) => OverlapIsASharedCell(items[k].cells, items[l].cells);
    case OverlapsStored(k) => HitIsASharedCell(t, map_, items, items[k].cells);
    case _ =>
  }

  // ---------------------------------------------------------------- the order of validation

  /** Created zones are validated before edited ones, each kind in request order. */
  ghost predicate Earlier(items: seq<Item>, k: int, l: int) {
    && 0 <= k < |items| && 0 <= l < |items| && !items[k].toDelete && !items[l].toDelete
    && if items[k].id.None? == items[l].id.None? then k < l else items[k].id.None?
  }

  lemma OrderSpelledOut(items: seq<Item>)
    ensures
      var index := Order(items);
      && (forall k :: k in index <==> 0 <= k < |items| && !items[k].toDelete)
      && (forall a, b :: 0 <= a < b < |index| ==> Earlier(items, index[a], index[b]))
  {
    PositionsSpelledOut(items, false, |items|);
    PositionsSpelledOut(items, true, |items|);
    var creates, edits := Positions(items, false, |items|), Positions(items, true, |items|);
    var index := creates + edits;
    assert index == Order(items);
    hide Positions;
    forall a | 0 <= a < |index|
      ensures 0 <= index[a] < |items| && !items[index[a]].toDelete && items[index[a]].id.None? == (a < |creates|)
    {
      assert if a < |creates| then index[a] in creates else index[a] in edits;
    }
  }

  /** An item that is validated earlier stands at an earlier place, and no item stands at two. */
  lemma PlacesFollowOrder(items: seq<Item>, i: nat, j: nat)
    requires i < |Order(items)| && j < |Order(items)|
    ensures Earlier(items, Order(items)[i], Order(items)[j]) ==> i < j
    ensures Order(items)[i] == Order(items)[j] ==> i == j
  {
    OrderSpelledOut(items);
    var index := Order(items);
    hide Order;
    assert j < i ==> Earlier(items, index[j], index[i]);
    assert i < j ==> Earlier(items, index[i], index[j]);
  }

  ghost predicate BadShape(bs: Boundaries, map_: MapId, item: Item) {
    !item.valid || item.cells == {} || map_ !in bs || exists c :: c in item.cells && c !in bs[map_]
  }

  /** No item that is validated earlier has the fault that is reported. */
  ghost predicate FirstFault(t: Zones, bs: Boundaries, map_: MapId, items: seq<Item>, e: Error) {
    match e
    case StaleEdit(k) =>
      forall l :: 0 <= l < k < |items| && !items[l].toDelete && items[l].id.Some? ==>
        items[l].id.value in t && t[items[l].id.value].map_ == map_
    case BoundaryMissing => true
    case BadGeometry(k) => forall l :: Earlier(items, l, k) ==> !BadShape(bs, map_, items[l])
    case OutsideBoundary(k) =>
      && (forall l :: Earlier(items, l, k) ==> !BadShape(bs, map_, items[l]))
      && k < |items| && items[k].valid && items[k].cells != {}
    case ItemsOverlap(k, l) =>
      && Earlier(items, k, l)
      && forall p, q :: Earlier(items, p, q) && (Earlier(items, p, k) || (p == k && Earlier(items, q, l))) ==>
           items[p].cells * items[q].cells == {}
    case OverlapsStored(k) => forall l :: Earlier(items, l, k) ==> !SharesACell(t, map_, items, items[l].cells)
  }

  lemma FirstBadShape(bs: Boundaries, map_: MapId, items: seq<Item>, k: nat, j: nat, e: Error)
    requires IsFirstBadShape(bs, map_, items, Order(items), j, e) && k == Order(items)[j]
    ensures forall l :: Earlier(items, l, k) ==> !BadShape(bs, map_, items[l])
  {
    OrderSpelledOut(items);
    var index := Order(items);
    hide Order;
    forall l | Earlier(items, l, k) ensures !BadShape(bs, map_, items[l]) {
      assert l in index;
      var i :| 0 <= i < |index| && index[i] == l;
      PlacesFollowOrder(items, i, j);
      assert ShapeOk(bs, map_, items[index[i]]);
    }
  }

  lemma FirstPair(items: seq<Item>, a: nat, b: nat, p: nat, q: nat)
    requires IsLowestPair(items, Order(items), a, b) && Earlier(items, p, q)
    requires Earlier(items, p, Order(items)[a]) || (p == Order(items)[a] && Earlier(items, q, Order(items)[b]))
    ensures items[p].cells * items[q].cells == {}
  {
    OrderSpelledOut(items);
    var index := Order(items);
    hide Order;
    hide Overlap;
    assert p in index && q in index;
    var i :| 0 <= i < |index| && index[i] == p;
    var j :| 0 <= j < |index| && index[j] == q;
    PlacesFollowOrder(items, i, j);
    PlacesFollowOrder(items, i, a);
    PlacesFollowOrder(items, j, b);
    assert PairBefore(i, j, a, b);
    OverlapIsASharedCell(items[p].cells, items[q].cells);
  }

  lemma FirstHit(t: Zones, map_: MapId, items: seq<Item>, j: nat, l: nat)
    requires IsFirstHit(t, map_, items, Order(items), j) && Earlier(items, l, Order(items)[j])
    ensures !SharesACell(t, map_, items, items[l].cells)
  {
    OrderSpelledOut(items);
    var index := Order(items);
    hide Order;
    hide HitsStored;
    assert l in index;
    var i :| 0 <= i < |index| && index[i] == l;
    PlacesFollowOrder(items, i, j);
    HitIsASharedCell(t, map_, items, items[l].cells);
  }

  lemma FirstFaultIsReported(t: Zones, bs: Boundaries, map_: MapId, items: seq<Item>, e: Error)
    requires IsAnswer(t, bs, map_, items, Some(e))
    ensures FirstFault(t, bs, map_, items, e)
  {
    OrderSpelledOut(items);
    var index := Order(items);
    match e
    case StaleEdit(k) =>
      assert forall l :: 0 <= l < k ==> EditOk(t, map_, items[l]);
    case BoundaryMissing =>
    case BadGeometry(k) =>
      var j: nat :| IsFirstBadShape(bs, map_, items, index, j, e);
      FirstBadShape(bs, map_, items, k, j, e);
    case OutsideBoundary(k) =>
      var j: nat :| IsFirstBadShape(bs, map_, items, index, j, e);
      FirstBadShape(bs, map_, items, k, j, e);
    case ItemsOverlap(k, l) =>
      var a: nat, b: nat :| IsLowestPair(items, index, a, b) && k == index[a] && l == index[b];
      forall p, q | Earlier(items, p, q) && (Earlier(items, p, k) || (p == k && Earlier(items, q, l)))
        ensures items[p].cells * items[q].cells == {}
      {
        FirstPair(items, a, b, p, q);
      }
    case OverlapsStored(k) =>
      var j: nat :| IsFirstHit(t, map_, items, index, j) && k == index[j];
      forall l | Earlier(items, l, k) ensures !SharesACell(t, map_, items, items[l].cells) {
        FirstHit(t, map_, items, j, l);
      }
  }

  // ---------------------------------------------------------------- other maps do not matter

  function OnlyOf(t: Zones, map_: MapId): Zones {
    map i | i in t && t[i].map_ == map_ :: t[i]
  }

  lemma HitsAreLocal(t: Zones, map_: MapId, items: seq<Item>, cells: Cells)
    ensures HitsStored(t, map_, items, cells) <==> HitsStored(OnlyOf(t, map_), map_, items, cells)
  {
    if HitsStored(t, map_, items, cells) {
      var i :| i in t && t[i].map_ == map_ && !Submitted(items, i) && Overlap(cells, t[i].cells);
      assert i in OnlyOf(t, map_);
    }
  }

  lemma EditsAreLocal(t: Zones, map_: MapId, items: seq<Item>)
    ensures forall k :: 0 <= k < |items| ==> (EditOk(t, map_, items[k]) <==> EditOk(OnlyOf(t, map_), map_, items[k]))
  {
  }

  /** The answer is the same on the table without the zones of other maps. */
  lemma AnswerIsLocal(t: Zones, bs: Boundaries, map_: MapId, items: seq<Item>, error: Option<Error>)
    ensures
      IsAnswer(t, bs, map_, items, error) <==> IsAnswer(OnlyOf(t, map_), bs, map_, items, error)
  {
    var t' := OnlyOf(t, map_);
    EditsAreLocal(t, map_, items);
    forall cells: Cells ensures HitsStored(t, map_, items, cells) <==> HitsStored(t', map_, items, cells) {
      HitsAreLocal(t, map_, items, cells);
    }
    hide HitsStored;
    hide EditOk;
    hide Overlap;
    hide OnlyOf;
    assert EditsOk(t, map_, items) <==> EditsOk(t', map_, items);
    assert StoredApart(t, map_, items) <==> StoredApart(t', map_, items);
    if error.Some? && error.value.OverlapsStored? {
      forall j: nat
        ensures IsFirstHit(t, map_, items, Order(items), j) <==> IsFirstHit(t', map_, items, Order(items), j)
      {
      }
    }
  }

  /** Of two different items that are written, one is validated earlier. */
  lemma EarlierIsTotal(items: seq<Item>, k: nat, l: nat)
    requires k < |items| && l < |items| && !items[k].toDelete && !items[l].toDelete
    ensures k == l || Earlier(items, k, l) || Earlier(items, l, k)
  {
  }

  /** Two faults that are both reported first are the same. */
  lemma FirstFaultIsUnique(t: Zones, bs: Boundaries, map_: MapId, items: seq<Item>, a: Error, b: Error)
    requires Justified(t, bs, map_, items, a) && FirstFault(t, bs, map_, items, a)
    requires Justified(t, bs, map_, items, b) && FirstFault(t, bs, map_, items, b)
    requires Check(a) == Check(b)
    ensures a == b
  {
    hide SharesACell;
    match a
    case StaleEdit(_) =>
    case BoundaryMissing =>
    case BadGeometry(k) => EarlierIsTotal(items, k, b.index);
    case OutsideBoundary(k) => EarlierIsTotal(items, k, b.index);
    case ItemsOverlap(k, l) =>
      EarlierIsTotal(items, k, b.first);
      EarlierIsTotal(items, l, b.second);
    case OverlapsStored(k) => EarlierIsTotal(items, k, b.index);
  }

  /** Which check failed. */
  function Check(e: Error): nat {
    match e
    case StaleEdit(_) => 0
    case BoundaryMissing => 1
    case BadGeometry(_) => 2
    case OutsideBoundary(_) => 2
    case ItemsOverlap(_, _) => 3
    case OverlapsStored(_) => 4
  }

  /** A request has one answer. */
  lemma AnswerIsUnique(t: Zones, bs: Boundaries, map_: MapId, items: seq<Item>, a: Option<Error>, b: Option<Error>)
    requires IsAnswer(t, bs, map_, items, a) && IsAnswer(t, bs, map_, items, b)
    ensures a == b
  {
    if a.Some? {
      ErrorSpelledOut(t, bs, map_, items, a.value);
      FirstFaultIsReported(t, bs, map_, items, a.value);
      AcceptedHasNoFault(t, bs, map_, items, a.value);
    }
    if b.Some? {
      ErrorSpelledOut(t, bs, map_, items, b.value);
      FirstFaultIsReported(t, bs, map_, items, b.value);
      AcceptedHasNoFault(t, bs, map_, items, b.value);
    }
    if a.Some? && b.Some? {
      OneCheckFails(t, bs, map_, items, a.value, b.value);
      FirstFaultIsUnique(t, bs, map_, items, a.value, b.value);
    }
  }

  lemma AcceptedHasNoFault(t: Zones, bs: Boundaries, map_: MapId, items: seq<Item>, e: Error)
    requires Justified(t, bs, map_, items, e)
    ensures !Acceptable(t, bs, map_, items)
  {
    if Acceptable(t, bs, map_, items) {
      AcceptableSpelledOut(t, bs, map_, items);
    }
  }

  /** The checks are made one after the other, so only one can be the first to fail. */
  lemma OneCheckFails(t: Zones, bs: Boundaries, map_: MapId, items: seq<Item>, a: Error, b: Error)
    requires Genuine(t, bs, map_, items, a) && Genuine(t, bs, map_, items, b)
    ensures Check(a) == Check(b)
  {
    hide Overlap;
    hide HitsStored;
  }

  // ---------------------------------------------------------------- what a save leaves

  /** A zone that is on the map now and was not stored before was created by the request. */
  lemma NewZoneIsCreated(t: Zones, t': Zones, map_: MapId, items: seq<Item>, newIds: seq<ZoneId>, i: ZoneId)
    requires |items| == |newIds| && EditsOk(t, map_, items) && IsSaved(t, t', map_, items, newIds)
    requires i in t' && t'[i].map_ == map_ && i !in t
    ensures exists k :: 0 <= k < |items| && !items[k].toDelete && items[k].id.None? && newIds[k] == i
  {
    assert OnMap(t', map_, i);
    var k :| 0 <= k < |items| && !items[k].toDelete && Names(items, newIds, k, i);
    assert EditOk(t, map_, items[k]);
  }

  /** Item by item: its zone has its kind and its cells, under its own id or a new one; deleted zones are gone. */
  lemma SavedSpelledOut(t: Zones, t': Zones, map_: MapId, items: seq<Item>, newIds: seq<ZoneId>)
    requires |items| == |newIds| && WellFormed(items) && EditsOk(t, map_, items)
    requires IsSaved(t, t', map_, items, newIds)
    ensures
      forall k :: 0 <= k < |items| && !items[k].toDelete ==>
        var id := if items[k].id.Some? then items[k].id.value else newIds[k];
        && id in t'
        && t'[id].map_ == map_ && t'[id].kind == items[k].kind && t'[id].cells == items[k].cells
    ensures
      forall k :: 0 <= k < |items| && items[k].toDelete ==>
        !(items[k].id.value in t' && t'[items[k].id.value].map_ == map_)
    ensures forall i :: i in t && t[i].map_ == map_ && !NamedBy(items, i) ==> i in t' && t'[i] == t[i]
    ensures forall i :: i in t && t[i].map_ != map_ ==> i in t' && t'[i] == t[i]
    ensures forall i :: i in t' && t'[i].map_ != map_ ==> i in t && t[i] == t'[i]
    ensures
      forall i :: i in t' && t'[i].map_ == map_ && i !in t ==>
        exists k :: 0 <= k < |items| && !items[k].toDelete && items[k].id.None? && newIds[k] == i
  {
    forall i | i in t && t[i].map_ == map_ && !NamedBy(items, i) ensures i in t' && t'[i] == t[i] {
      assert !Submitted(items, i);
    }
    forall i | i in t' && t'[i].map_ == map_ && i !in t
      ensures exists k :: 0 <= k < |items| && !items[k].toDelete && items[k].id.None? && newIds[k] == i
    {
      NewZoneIsCreated(t, t', map_, items, newIds, i);
    }
  }
}
