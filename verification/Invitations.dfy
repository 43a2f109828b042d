/**
 Group memberships with their invitations: the Postgres rows, the two Redis keys of
 an invitation, and what each statement and script does to them.
 */
module Invitations {
  import opened Options

  type GroupId = nat
  type MemberId = nat
  type InvitationId = nat
  type Time = int
  type Key = (GroupId, MemberId)

  /** Lowest first, as in the role hierarchy. */
  datatype Role = Guest | Member | Moderator | Admin | Owner

  datatype Status = Pending | Accepted | Rejected

  datatype Row = Row(role: Role, status: Status, id: Option<InvitationId>, expires: Option<Time>)

  type Rows = map<Key, Row>

  datatype Invitation = Invitation(id: InvitationId, key: Key, email: string, role: Role)

  /** Seven days. */
  const EXPIRE_SECONDS: nat := 604800

  function Rank(r: Role): nat {
    match r
    case Guest => 0
    case Member => 1
    case Moderator => 2
    case Admin => 3
    case Owner => 4
  }

  predicate Invitable(r: Role) {
    r == Member || r == Moderator || r == Guest
  }

  /** Who is ranked below whom. */
  ghost predicate Below(a: Role, b: Role) {
    match b
    case Owner => a != Owner
    case Admin => a == Moderator || a == Member || a == Guest
    case Moderator => a == Member || a == Guest
    case Member => a == Guest
    case Guest => false
  }

  lemma RankIsTheHierarchy(a: Role, b: Role)
    ensures Rank(a) < Rank(b) <==> Below(a, b)
    ensures Invitable(a) <==> Below(a, Admin)
  {
  }

  // ---------------------------------------------------------------- the membership statements

  /** The rows of a batch of invitations, written one after the other. */
  function Upsert(rows: Rows, batch: seq<Invitation>, expires: Time): Rows {
    if batch == [] then rows
    else
      var last := batch[|batch| - 1];
      Upsert(rows, batch[..|batch| - 1], expires)[last.key := Row(last.role, Pending, Some(last.id), Some(expires))]
  }

  /** The batch has an invitation for this member. */
  ghost predicate Invites(batch: seq<Invitation>, k: Key) {
    exists j :: 0 <= j < |batch| && batch[j].key == k
  }

  lemma InvitesOneMore(before: seq<Invitation>, last: Invitation, k: Key)
    ensures Invites(before + [last], k) <==> Invites(before, k) || k == last.key
  {
    var batch := before + [last];
    if Invites(before, k) {
      var j :| 0 <= j < |before| && before[j].key == k;
      assert batch[j].key == k;
    }
    assert batch[|before|] == last;
  }

  /** The last invitation of the batch for its member. */
  ghost predicate IsLast(batch: seq<Invitation>, j: nat) {
    j < |batch| && forall l :: j < l < |batch| ==> batch[l].key != batch[j].key
  }

  /** Of several invitations for one member the last one is written; rows that no invitation names stay. */
  lemma {:induction false} UpsertSpelledOut(rows: Rows, batch: seq<Invitation>, expires: Time)
    ensures
      var rows' := Upsert(rows, batch, expires);
      && (forall k :: k in rows' <==> k in rows || Invites(batch, k))
      && (forall k :: k in rows && !Invites(batch, k) ==> rows'[k] == rows[k])
      && (forall j: nat :: IsLast(batch, j) ==>
            batch[j].key in rows' && IsInvited(rows'[batch[j].key], batch[j], expires))
  {
    if batch != [] {
      var before, last := batch[..|batch| - 1], batch[|batch| - 1];
      assert batch == before + [last];
      UpsertSpelledOut(rows, before, expires);
      forall k ensures Invites(batch, k) <==> Invites(before, k) || k == last.key {
        InvitesOneMore(before, last, k);
      }
      hide Invites;
      forall j: nat | IsLast(batch, j) && j < |before|
        ensures IsLast(before, j) && batch[j] == before[j] && batch[j].key != last.key
      {
        assert forall l :: j < l < |before| ==> before[l] == batch[l];
      }
    }
  }

  /** The row waits for this invitation, with its role, until the expiry. */
  ghost predicate IsInvited(row: Row, inv: Invitation, expires: Time) {
    row.role == inv.role && row.status == Pending && row.id == Some(inv.id) && row.expires == Some(expires)
  }

  /** The row waits for exactly this invitation. */
  predicate Awaits(rows: Rows, key: Key, id: InvitationId) {
    key in rows && rows[key].status == Pending && rows[key].id == Some(id)
  }

  predicate Acceptable(rows: Rows, key: Key, id: InvitationId, now: Time) {
    Awaits(rows, key, id) && rows[key].expires.Some? && rows[key].expires.value > now
  }

  function Accept(rows: Rows, key: Key, id: InvitationId, now: Time): Rows {
    if Acceptable(rows, key, id, now) then rows[key := Row(rows[key].role, Accepted, None, None)] else rows
  }

  function Swept(row: Row, now: Time): Row {
    if row.status == Pending && row.expires.Some? && row.expires.value <= now then
      Row(row.role, Rejected, None, None)
    else
      row
  }

  function RejectExpired(rows: Rows, now: Time): Rows {
    map k | k in rows :: Swept(rows[k], now)
  }

  /** The row waits and its expiry has come. */
  ghost predicate Due(row: Row, now: Time) {
    row.status == Pending && row.expires.Some? && row.expires.value <= now
  }

  /** What a sweep leaves: every due row is rejected with its role kept, every other row is the same. */
  ghost predicate SweptClean(rows: Rows, rows': Rows, now: Time) {
    && rows'.Keys == rows.Keys
    && (forall k :: k in rows && !Due(rows[k], now) ==> rows'[k] == rows[k])
    && (forall k :: k in rows && Due(rows[k], now) ==>
          && rows'[k].role == rows[k].role && rows'[k].status == Rejected
          && rows'[k].id == None && rows'[k].expires == None)
  }

  /** A row changes exactly when it is due. */
  lemma SweepSpelledOut(rows: Rows, now: Time)
    ensures SweptClean(rows, RejectExpired(rows, now), now)
    ensures forall k :: k in rows ==> (RejectExpired(rows, now)[k] != rows[k] <==> Due(rows[k], now))
  {
  }

  function UpdateRole(rows: Rows, key: Key, role: Role): Rows {
    if key in rows && rows[key].status == Accepted then rows[key := rows[key].(role := role)] else rows
  }

  function CreateOwners(rows: Rows, group: GroupId, owners: set<MemberId>): Rows {
    rows + map m | m in owners :: (group, m) := Row(Owner, Accepted, None, None)
  }

  // ---------------------------------------------------------------- the two Redis keys

  datatype Stored<T> = Stored(value: T, expires: Time)

  /** `invitations` holds the invitation keys, `pending` the index of the current one per member. */
  datatype Redis = Redis(
    invitations: map<InvitationId, Stored<Invitation>>, pending: map<Key, Stored<InvitationId>>)

  predicate Live(r: Redis, id: InvitationId, now: Time) {
    id in r.invitations && now < r.invitations[id].expires
  }

  /** What `GET` of the index answers: an expired key is gone. */
  function Indexed(r: Redis, key: Key, now: Time): Option<InvitationId> {
    if key in r.pending && now < r.pending[key].expires then Some(r.pending[key].value) else None
  }

  /** `replace_pending_invitation`. */
  function Replace(r: Redis, inv: Invitation, now: Time): Redis {
    var superseded := Indexed(r, inv.key, now);
    var kept := if superseded.Some? then r.invitations - {superseded.value} else r.invitations;
    Redis(
      kept[inv.id := Stored(inv, now + EXPIRE_SECONDS)],
      r.pending[inv.key := Stored(inv.id, now + EXPIRE_SECONDS)])
  }

  /** `consume`. */
  function Consume(r: Redis, inv: Invitation, now: Time): Redis {
    Redis(
      r.invitations - {inv.id},
      if Indexed(r, inv.key, now) == Some(inv.id) then r.pending - {inv.key} else r.pending)
  }

  /** Every live invitation is the one its member's index names, and both keys expire together. */
  ghost predicate IndexedAll(r: Redis, now: Time) {
    forall id :: Live(r, id, now) ==>
      var inv := r.invitations[id];
      && inv.value.id == id
      && inv.value.key in r.pending
      && r.pending[inv.value.key] == Stored(id, inv.expires)
  }

  lemma OneLivePerMember(r: Redis, now: Time, a: InvitationId, b: InvitationId)
    requires IndexedAll(r, now) && Live(r, a, now) && Live(r, b, now)
    requires r.invitations[a].value.key == r.invitations[b].value.key
    ensures a == b
  {
    assert r.pending[r.invitations[a].value.key].value == a;
  }

  lemma TimeKeepsIndex(r: Redis, now: Time, later: Time)
    requires IndexedAll(r, now) && now <= later
    ensures IndexedAll(r, later)
  {
    forall id | Live(r, id, later) ensures Live(r, id, now) {
    }
  }

  /** A replacement removes the invitation it supersedes; `inv.id` must not be another member's. */
  lemma ReplaceKeepsIndex(r: Redis, inv: Invitation, now: Time)
    requires IndexedAll(r, now)
    requires inv.id in r.invitations ==> r.invitations[inv.id].value.key == inv.key
    ensures IndexedAll(Replace(r, inv, now), now)
  {
    var r' := Replace(r, inv, now);
    forall id | Live(r', id, now) && id != inv.id
      ensures
        var stored := r'.invitations[id];
        stored.value.id == id && stored.value.key in r'.pending
        && r'.pending[stored.value.key] == Stored(id, stored.expires)
    {
      assert Live(r, id, now);
      assert r.invitations[id].value.key == inv.key ==> Indexed(r, inv.key, now) == Some(id);
    }
  }

  /** Consuming an old invitation leaves a newer one and its index in place. */
  lemma ConsumeKeepsIndex(r: Redis, inv: Invitation, now: Time)
    requires IndexedAll(r, now)
    ensures IndexedAll(Consume(r, inv, now), now)
    ensures forall id :: Live(r, id, now) && id != inv.id ==> Live(Consume(r, inv, now), id, now)
    ensures !Live(Consume(r, inv, now), inv.id, now)
  {
    var r' := Consume(r, inv, now);
    forall id | Live(r', id, now)
      ensures
        var stored := r'.invitations[id];
        stored.value.id == id && stored.value.key in r'.pending
        && r'.pending[stored.value.key] == Stored(id, stored.expires)
    {
      assert Live(r, id, now);
    }
  }

  /** No other invitation of this member is live. */
  ghost predicate OnlyLive(r: Redis, inv: Invitation, now: Time) {
    forall id :: Live(r, id, now) && r.invitations[id].value.key == inv.key ==> id == inv.id
  }

  /** Exactly when a replacement leaves one live invitation: any other live one is the one the index names. */
  lemma ReplaceLeavesOneExactlyWhenIndexed(r: Redis, inv: Invitation, now: Time)
    ensures Live(Replace(r, inv, now), inv.id, now)
    ensures
      OnlyLive(Replace(r, inv, now), inv, now) <==>
      forall id :: Live(r, id, now) && r.invitations[id].value.key == inv.key && id != inv.id ==>
        Indexed(r, inv.key, now) == Some(id)
  {
    var r' := Replace(r, inv, now);
    forall id | Live(r, id, now) && r.invitations[id].value.key == inv.key && id != inv.id
      ensures Indexed(r, inv.key, now) == Some(id) <==> !Live(r', id, now)
      ensures Live(r', id, now) ==> r'.invitations[id].value.key == inv.key
    {
    }
    forall id | Live(r', id, now) && id != inv.id ensures Live(r, id, now) && r'.invitations[id] == r.invitations[id] {
    }
  }

  /** What eviction can do to the two kinds of keys. */
  function DropInvitation(r: Redis, id: InvitationId): Redis {
    r.(invitations := r.invitations - {id})
  }

  function DropIndex(r: Redis, key: Key): Redis {
    r.(pending := r.pending - {key})
  }

  /** The index of this member names an invitation that is still live. */
  predicate IndexInUse(r: Redis, key: Key, now: Time) {
    key in r.pending && Live(r, r.pending[key].value, now) && r.invitations[r.pending[key].value].value.key == key
  }

  lemma DroppedInvitationKeepsIndex(r: Redis, id: InvitationId, now: Time)
    requires IndexedAll(r, now)
    ensures IndexedAll(DropInvitation(r, id), now)
  {
    forall j | Live(DropInvitation(r, id), j, now) ensures Live(r, j, now) {
    }
  }

  /** Losing an index key does harm exactly while its invitation is live. */
  lemma DroppedIndexKeepsIndexUnlessInUse(r: Redis, key: Key, now: Time)
    requires IndexedAll(r, now)
    ensures IndexedAll(DropIndex(r, key), now) <==> !IndexInUse(r, key, now)
  {
    var r' := DropIndex(r, key);
    if IndexInUse(r, key, now) {
      assert Live(r', r.pending[key].value, now);
    } else {
      forall id | Live(r', id, now) ensures r.invitations[id].value.key != key {
        assert Live(r, id, now);
      }
    }
  }

  /** An input on which two stay live: without its index key an old invitation survives its replacement. */
  lemma EvictedIndexLeavesTwo()
    ensures
      var a, b := Invitation(1, (7, 8), "a@x", Guest), Invitation(2, (7, 8), "a@x", Member);
      var stored := Replace(Redis(map[], map[]), a, 0);
      var r := Replace(stored.(pending := map[]), b, 1);
      Live(r, 1, 1) && Live(r, 2, 1)
  {
  }
}
