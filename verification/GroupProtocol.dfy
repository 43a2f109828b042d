/**
 The transactions, Redis scripts and half-finished calls of group membership as one
 state machine.  Between its transactions a call can be overtaken by any other; the
 role a requester is believed to have is arbitrary, since it comes from a cache.
 */
module GroupProtocol {
  import opened Options
  import opened Invitations

  /**
   `unstored` are invitations whose script has not run, `accepting` those a recipient
   has read and may accept, `updates` and `deletions` what has passed its checks and
   is still to be written.
   */
  datatype State = State(
    clock: Time, groups: set<GroupId>, rows: Rows, redis: Redis, issued: map<InvitationId, Invitation>,
    unstored: set<InvitationId>, accepting: set<InvitationId>, updates: set<(Key, Role)>, deletions: set<Key>)

  datatype Event =
    | Tick(to: Time)
    | CreateGroup(group: GroupId, owners: set<MemberId>)
    | Invite(group: GroupId, batch: seq<Invitation>, at: Time)
    | Store(id: InvitationId)
    | Open(id: InvitationId, email: string)
    | Activate(id: InvitationId, at: Time)
    | Forget(id: InvitationId)
    | Sweep(at: Time)
    | ApproveUpdate(key: Key, requester: Role, role: Role)
    | CommitUpdate(key: Key, role: Role)
    | ApproveDelete(key: Key, requester: Role)
    | CommitDelete(key: Key)
    | EvictInvitation(id: InvitationId)
    | EvictIndex(key: Key)

  function Init(clock: Time): State {
    State(clock, {}, map[], Redis(map[], map[]), map[], {}, {}, {}, {})
  }

  predicate Manageable(rows: Rows, key: Key, requester: Role) {
    key in rows && Rank(rows[key].role) < Rank(requester)
  }

  /** The checks of an invitation batch, with new identifiers. */
  ghost predicate CanInvite(s: State, group: GroupId, batch: seq<Invitation>) {
    && group in s.groups && batch != []
    && (forall k :: 0 <= k < |batch| ==>
          && batch[k].key.0 == group && Invitable(batch[k].role)
          && !(batch[k].key in s.rows && s.rows[batch[k].key].status == Accepted)
          && batch[k].id !in s.issued)
    && (forall k, l :: 0 <= k < l < |batch| ==> batch[k].key != batch[l].key && batch[k].id != batch[l].id)
  }

  ghost predicate Enabled(s: State, e: Event) {
    match e
    case Tick(to) => s.clock <= to
    case CreateGroup(g, owners) => g !in s.groups && owners != {}
    case Invite(g, batch, at) => CanInvite(s, g, batch) && at <= s.clock
    case Store(id) => id in s.unstored && id in s.issued
    case Open(id, email) => Live(s.redis, id, s.clock) && s.redis.invitations[id].value.email == email
    case Activate(id, at) => id in s.accepting && id in s.issued && at <= s.clock
    case Forget(id) => id in s.issued
    case Sweep(at) => at <= s.clock
    case ApproveUpdate(key, requester, role) =>
      && key.0 in s.groups && Manageable(s.rows, key, requester) && s.rows[key].status == Accepted
      && Rank(role) < Rank(requester)
    case CommitUpdate(key, role) => (key, role) in s.updates
    case ApproveDelete(key, requester) => key.0 in s.groups && Manageable(s.rows, key, requester)
    case CommitDelete(key) => key in s.deletions
    case _ => true
  }

  function Issue(issued: map<InvitationId, Invitation>, batch: seq<Invitation>): map<InvitationId, Invitation> {
    if batch == [] then issued
    else
      var last := batch[|batch| - 1];
      Issue(issued, batch[..|batch| - 1])[last.id := last]
  }

  ghost function Next(s: State, e: Event): State
    requires Enabled(s, e)
  {
    match e
    case Tick(to) => s.(clock := to)
    case CreateGroup(g, owners) => s.(groups := s.groups + {g}, rows := CreateOwners(s.rows, g, owners))
    case Invite(g, batch, at) =>
      s.(rows := Upsert(s.rows, batch, at + EXPIRE_SECONDS), issued := Issue(s.issued, batch),
         unstored := s.unstored + set k | 0 <= k < |batch| :: batch[k].id)
    case Store(id) => s.(redis := Replace(s.redis, s.issued[id], s.clock), unstored := s.unstored - {id})
    case Open(id, _) => s.(accepting := s.accepting + {id})
    case Activate(id, at) => s.(rows := Accept(s.rows, s.issued[id].key, id, at))
    case Forget(id) => s.(redis := Consume(s.redis, s.issued[id], s.clock))
    case Sweep(at) => s.(rows := RejectExpired(s.rows, at))
    case ApproveUpdate(key, _, role) => s.(updates := s.updates + {(key, role)})
    case CommitUpdate(key, role) => s.(rows := UpdateRole(s.rows, key, role), updates := s.updates - {(key, role)})
    case ApproveDelete(key, _) => s.(deletions := s.deletions + {key})
    case CommitDelete(key) => s.(rows := s.rows - {key}, deletions := s.deletions - {key})
    case EvictInvitation(id) => s.(redis := DropInvitation(s.redis, id))
    case EvictIndex(key) => s.(redis := DropIndex(s.redis, key))
  }

  ghost predicate IsRun(s: State, es: seq<Event>)
    decreases |es|
  {
    es == [] || (Enabled(s, es[0]) && IsRun(Next(s, es[0]), es[1..]))
  }

  ghost function Run(s: State, es: seq<Event>): State
    requires IsRun(s, es)
    decreases |es|
  {
    if es == [] then s else Run(Next(s, es[0]), es[1..])
  }

  // ---------------------------------------------------------------- the invariant

  /** A row is pending exactly when it carries an invitation and its expiry; then it is the invitation issued for it. */
  ghost predicate RowOk(s: State, k: Key) {
    k in s.rows ==>
      && k.0 in s.groups
      && (s.rows[k].status == Pending <==> s.rows[k].id.Some?)
      && (s.rows[k].status == Pending <==> s.rows[k].expires.Some?)
      && (s.rows[k].role == Owner ==> s.rows[k].status == Accepted)
      && (s.rows[k].id.Some? ==>
            var id := s.rows[k].id.value;
            id in s.issued && s.issued[id].key == k && s.issued[id].role == s.rows[k].role)
  }

  ghost predicate RowsOk(s: State) {
    forall k :: RowOk(s, k)
  }

  ghost predicate IssuedOk(s: State) {
    forall id :: id in s.issued ==>
      s.issued[id].id == id && Invitable(s.issued[id].role) && s.issued[id].key.0 in s.groups
  }

  ghost predicate RedisOk(s: State) {
    forall id :: id in s.redis.invitations ==> id in s.issued && s.redis.invitations[id].value == s.issued[id]
  }

  predicate IsOwner(rows: Rows, k: Key) {
    k in rows && rows[k].role == Owner
  }

  /** Nobody in a group that exists became or stopped being an owner. */
  ghost predicate SameOwners(s: State, s': State) {
    forall k: Key :: k.0 in s.groups ==> (IsOwner(s'.rows, k) <==> IsOwner(s.rows, k))
  }

  /** What has passed its checks never concerns an owner. */
  ghost predicate ApprovedOk(s: State) {
    && (forall u :: u in s.updates ==> u.0.0 in s.groups && u.1 != Owner && !IsOwner(s.rows, u.0))
    && (forall k :: k in s.deletions ==> k.0 in s.groups && !IsOwner(s.rows, k))
  }

  ghost predicate Inv(s: State) {
    RowsOk(s) && IssuedOk(s) && RedisOk(s) && ApprovedOk(s)
  }

  // ---------------------------------------------------------------- batches

  ghost predicate Writes(batch: seq<Invitation>, k: Key, row: Row, expires: Time) {
    exists j :: 0 <= j < |batch| && batch[j].key == k
      && row == Row(batch[j].role, Pending, Some(batch[j].id), Some(expires))
  }

  lemma {:induction false} UpsertedRows(rows: Rows, batch: seq<Invitation>, expires: Time, k: Key)
    ensures k in rows ==> k in Upsert(rows, batch, expires)
    ensures
      k in Upsert(rows, batch, expires) ==>
        || (k in rows && Upsert(rows, batch, expires)[k] == rows[k]
            && forall j :: 0 <= j < |batch| ==> batch[j].key != k)
        || Writes(batch, k, Upsert(rows, batch, expires)[k], expires)
  {
    if batch != [] {
      var before, last := batch[..|batch| - 1], batch[|batch| - 1];
      UpsertedRows(rows, before, expires, k);
      if k == last.key {
        assert batch[|batch| - 1].key == k;
      } else if k in Upsert(rows, batch, expires) && Writes(before, k, Upsert(rows, before, expires)[k], expires) {
        var j :| 0 <= j < |before| && before[j].key == k &&
          Upsert(rows, before, expires)[k] == Row(before[j].role, Pending, Some(before[j].id), Some(expires));
        assert batch[j] == before[j];
      }
    }
  }

  ghost predicate IssuedBy(batch: seq<Invitation>, inv: Invitation) {
    exists j :: 0 <= j < |batch| && batch[j] == inv
  }

  lemma {:induction false} IssuedInvitations(issued: map<InvitationId, Invitation>, batch: seq<Invitation>)
    requires forall k :: 0 <= k < |batch| ==> batch[k].id !in issued
    requires forall k, l :: 0 <= k < l < |batch| ==> batch[k].id != batch[l].id
    ensures forall id :: id in issued ==> id in Issue(issued, batch) && Issue(issued, batch)[id] == issued[id]
    ensures
      forall k :: 0 <= k < |batch| ==>
        batch[k].id in Issue(issued, batch) && Issue(issued, batch)[batch[k].id] == batch[k]
    ensures forall id :: id in Issue(issued, batch) ==> id in issued || IssuedBy(batch, Issue(issued, batch)[id])
    ensures forall id :: id in Issue(issued, batch) && id !in issued ==> Issue(issued, batch)[id].id == id
  {
    if batch != [] {
      var before, last := batch[..|batch| - 1], batch[|batch| - 1];
      IssuedInvitations(issued, before);
      forall id | id in Issue(issued, batch) && id !in issued ensures IssuedBy(batch, Issue(issued, batch)[id]) {
        if id == last.id {
          assert batch[|batch| - 1] == last;
        } else {
          var j :| 0 <= j < |before| && before[j] == Issue(issued, before)[id];
          assert batch[j] == Issue(issued, batch)[id];
        }
      }
    }
  }

  // ---------------------------------------------------------------- the invariant is kept

  lemma InviteKeepsRow(s: State, e: Event, k: Key)
    requires Inv(s) && e.Invite? && Enabled(s, e)
    ensures RowOk(Next(s, e), k)
    ensures !IsOwner(s.rows, k) ==> !IsOwner(Next(s, e).rows, k)
    ensures IsOwner(s.rows, k) ==> IsOwner(Next(s, e).rows, k)
  {
    assert RowOk(s, k);
    UpsertedRows(s.rows, e.batch, e.at + EXPIRE_SECONDS, k);
    IssuedInvitations(s.issued, e.batch);
    var rows' := Next(s, e).rows;
    if k in rows' && Writes(e.batch, k, rows'[k], e.at + EXPIRE_SECONDS) {
      var j :| 0 <= j < |e.batch| && e.batch[j].key == k &&
        rows'[k] == Row(e.batch[j].role, Pending, Some(e.batch[j].id), Some(e.at + EXPIRE_SECONDS));
      assert Next(s, e).issued[e.batch[j].id] == e.batch[j];
    }
  }

  lemma NextKeepsRow(s: State, e: Event, k: Key)
    requires Inv(s) && Enabled(s, e) && !e.Invite?
    ensures RowOk(Next(s, e), k)
    ensures k.0 in s.groups && !IsOwner(s.rows, k) ==> !IsOwner(Next(s, e).rows, k)
    ensures IsOwner(s.rows, k) ==> IsOwner(Next(s, e).rows, k)
  {
    assert RowOk(s, k);
    hide RedisOk;
    hide IssuedOk;
    hide Replace;
    hide Consume;
  }

  lemma NextKeepsRows(s: State, e: Event)
    requires Inv(s) && Enabled(s, e)
    ensures RowsOk(Next(s, e))
    ensures SameOwners(s, Next(s, e))
  {
    hide Next;
    hide Enabled;
    hide Inv;
    hide IsOwner;
    forall k: Key
      ensures RowOk(Next(s, e), k)
      ensures k.0 in s.groups ==> (IsOwner(Next(s, e).rows, k) <==> IsOwner(s.rows, k))
    {
      if e.Invite? {
        InviteKeepsRow(s, e, k);
      } else {
        NextKeepsRow(s, e, k);
      }
    }
  }

  lemma NextKeepsIssued(s: State, e: Event)
    requires IssuedOk(s) && Enabled(s, e)
    ensures IssuedOk(Next(s, e))
    ensures forall id :: id in s.issued ==> id in Next(s, e).issued && Next(s, e).issued[id] == s.issued[id]
  {
    if e.Invite? {
      IssuedInvitations(s.issued, e.batch);
      var s' := Next(s, e);
      forall id | id in s'.issued && id !in s.issued
        ensures s'.issued[id].id == id && Invitable(s'.issued[id].role) && s'.issued[id].key.0 in s'.groups
      {
        var j :| 0 <= j < |e.batch| && e.batch[j] == s'.issued[id];
      }
    }
  }

  lemma NextKeepsRedis(s: State, e: Event)
    requires RedisOk(s) && IssuedOk(s) && Enabled(s, e)
    ensures RedisOk(Next(s, e))
  {
    NextKeepsIssued(s, e);
    hide Upsert;
    hide Issue;
  }

  lemma NextKeepsApproved(s: State, e: Event)
    requires ApprovedOk(s) && Enabled(s, e)
    requires SameOwners(s, Next(s, e))
    ensures ApprovedOk(Next(s, e))
  {
    hide Upsert;
    hide Replace;
    hide Consume;
    hide Accept;
    hide CreateOwners;
    hide UpdateRole;
    hide RejectExpired;
  }

  lemma NextKeepsInv(s: State, e: Event)
    requires Inv(s) && Enabled(s, e)
    ensures Inv(Next(s, e))
    ensures SameOwners(s, Next(s, e))
    ensures s.groups <= Next(s, e).groups
  {
    NextKeepsRows(s, e);
    NextKeepsIssued(s, e);
    NextKeepsRedis(s, e);
    NextKeepsApproved(s, e);
  }

  lemma {:induction false} RunKeepsInv(s: State, es: seq<Event>)
    requires Inv(s) && IsRun(s, es)
    ensures Inv(Run(s, es))
    decreases |es|
  {
    if es != [] {
      NextKeepsInv(s, es[0]);
      RunKeepsInv(Next(s, es[0]), es[1..]);
    }
  }

  // ---------------------------------------------------------------- what every run guarantees

  function Owners(rows: Rows, group: GroupId): set<Key> {
    set k | k in rows && k.0 == group && rows[k].role == Owner
  }

  /**
   Once a group exists, no run of invitations, acceptances, sweeps, role updates and
   removals adds, removes or demotes an owner, whatever role the requesters are
   believed to have.
   */
  lemma {:induction false} OwnersAreFrozen(s: State, es: seq<Event>, group: GroupId)
    requires Inv(s) && IsRun(s, es) && group in s.groups
    ensures Owners(Run(s, es).rows, group) == Owners(s.rows, group)
    ensures forall k :: k in Owners(s.rows, group) ==> Run(s, es).rows[k] == Row(Owner, Accepted, None, None)
    decreases |es|
  {
    if es == [] {
      forall k | k in Owners(s.rows, group) ensures s.rows[k] == Row(Owner, Accepted, None, None) {
        assert RowOk(s, k);
      }
    } else {
      var s' := Next(s, es[0]);
      NextKeepsInv(s, es[0]);
      OwnersAreFrozen(s', es[1..], group);
      assert forall k: Key :: k.0 == group ==> (IsOwner(s'.rows, k) <==> IsOwner(s.rows, k));
      assert Owners(s'.rows, group) == Owners(s.rows, group);
    }
  }

  /** A group starts with exactly the owners it was created with. */
  lemma CreationSetsTheOwners(s: State, e: Event)
    requires Inv(s) && e.CreateGroup? && Enabled(s, e)
    ensures Owners(Next(s, e).rows, e.group) == set m | m in e.owners :: (e.group, m)
  {
    forall k | k in s.rows ensures k.0 != e.group {
      assert RowOk(s, k);
    }
  }

  /** The one way from pending to accepted: the row's own invitation, before it expires, with the invited role. */
  lemma ActivationNeedsTheCurrentInvitation(s: State, e: Event, k: Key)
    requires Inv(s) && Enabled(s, e)
    requires k in s.rows && s.rows[k].status != Accepted
    requires k in Next(s, e).rows && Next(s, e).rows[k].status == Accepted
    ensures e.Activate? && s.issued[e.id].key == k
    ensures Awaits(s.rows, k, e.id) && e.at < s.rows[k].expires.value
    ensures Next(s, e).rows[k] == Row(s.issued[e.id].role, Accepted, None, None)
  {
    assert RowOk(s, k);
    if e.Invite? {
      UpsertedRows(s.rows, e.batch, e.at + EXPIRE_SECONDS, k);
    }
    hide Upsert;
  }

  /** An invitation that was issued and that its row does not wait for (superseded, expired, accepted or deleted). */
  ghost predicate Retired(s: State, id: InvitationId) {
    id in s.issued && !Awaits(s.rows, s.issued[id].key, id)
  }

  lemma RetiredStaysRetired(s: State, e: Event, id: InvitationId)
    requires Inv(s) && Enabled(s, e) && Retired(s, id)
    ensures Retired(Next(s, e), id)
  {
    NextKeepsIssued(s, e);
    var k := s.issued[id].key;
    assert RowOk(s, k);
    if e.Invite? {
      UpsertedRows(s.rows, e.batch, e.at + EXPIRE_SECONDS, k);
    }
    hide Upsert;
    hide Issue;
  }

  /** A retired invitation never becomes anybody's current one again. */
  lemma {:induction false} RetiredForEver(s: State, es: seq<Event>, id: InvitationId)
    requires Inv(s) && IsRun(s, es) && Retired(s, id)
    ensures Retired(Run(s, es), id)
    decreases |es|
  {
    if es != [] {
      NextKeepsInv(s, es[0]);
      RetiredStaysRetired(s, es[0], id);
      RetiredForEver(Next(s, es[0]), es[1..], id);
    }
  }

  /** Whenever a retired invitation is presented later, nothing is activated. */
  lemma RetiredNeverActivates(s: State, es: seq<Event>, id: InvitationId, at: Time)
    requires Inv(s) && IsRun(s, es) && Retired(s, id)
    requires Enabled(Run(s, es), Activate(id, at))
    ensures Next(Run(s, es), Activate(id, at)).rows == Run(s, es).rows
  {
    RetiredForEver(s, es, id);
    RunKeepsInv(s, es);
  }

  /** An activation retires its invitation, so each one works at most once. */
  lemma ActivationRetires(s: State, e: Event)
    requires Inv(s) && e.Activate? && Enabled(s, e)
    requires Acceptable(s.rows, s.issued[e.id].key, e.id, e.at)
    ensures Retired(Next(s, e), e.id)
  {
  }

  // ---------------------------------------------------------------- how many invitations are live

  /** The event takes an index key away while the invitation it names is live. */
  predicate LosesIndex(s: State, e: Event) {
    e.EvictIndex? && IndexInUse(s.redis, e.key, s.clock)
  }

  /** Every step keeps index and invitations together, except exactly the loss of an index in use. */
  lemma IndexIsKeptUnlessLost(s: State, e: Event)
    requires Inv(s) && Enabled(s, e) && IndexedAll(s.redis, s.clock)
    ensures IndexedAll(Next(s, e).redis, Next(s, e).clock) <==> !LosesIndex(s, e)
  {
    hide Upsert;
    hide Issue;
    match e
    case Tick(to) => TimeKeepsIndex(s.redis, s.clock, to);
    case Store(id) => ReplaceKeepsIndex(s.redis, s.issued[id], s.clock);
    case Forget(id) => ConsumeKeepsIndex(s.redis, s.issued[id], s.clock);
    case EvictInvitation(id) => DroppedInvitationKeepsIndex(s.redis, id, s.clock);
    case EvictIndex(key) => DroppedIndexKeepsIndexUnlessInUse(s.redis, key, s.clock);
    case _ =>
  }

  /** A run in which no index key is evicted while its invitation is live. */
  ghost predicate KeepsIndexes(s: State, es: seq<Event>)
    requires IsRun(s, es)
    decreases |es|
  {
    es == [] || (!LosesIndex(s, es[0]) && KeepsIndexes(Next(s, es[0]), es[1..]))
  }

  lemma {:induction false} RunKeepsIndex(s: State, es: seq<Event>)
    requires Inv(s) && IndexedAll(s.redis, s.clock) && IsRun(s, es) && KeepsIndexes(s, es)
    ensures IndexedAll(Run(s, es).redis, Run(s, es).clock)
    decreases |es|
  {
    hide Inv;
    hide IndexedAll;
    if es != [] {
      NextKeepsInv(s, es[0]);
      IndexIsKeptUnlessLost(s, es[0]);
      RunKeepsIndex(Next(s, es[0]), es[1..]);
    }
  }

  /** While no index key is evicted before its invitation, a member has at most one live invitation to a group. */
  lemma OneLiveInvitation(clock: Time, es: seq<Event>, a: InvitationId, b: InvitationId)
    requires IsRun(Init(clock), es) && KeepsIndexes(Init(clock), es)
    ensures
      var s := Run(Init(clock), es);
      Live(s.redis, a, s.clock) && Live(s.redis, b, s.clock) ==>
        s.redis.invitations[a].value.key == s.redis.invitations[b].value.key ==> a == b
  {
    RunKeepsIndex(Init(clock), es);
    var s := Run(Init(clock), es);
    if
      && Live(s.redis, a, s.clock) && Live(s.redis, b, s.clock)
      && s.redis.invitations[a].value.key == s.redis.invitations[b].value.key
    {
      OneLivePerMember(s.redis, s.clock, a, b);
    }
  }

  /** After the loss of an index in use, the next script that stores an invitation for the member leaves two. */
  lemma LostIndexLeavesTwo(s: State, key: Key, id: InvitationId)
    requires Inv(s) && LosesIndex(s, EvictIndex(key))
    requires id in s.unstored && id in s.issued && s.issued[id].key == key && s.redis.pending[key].value != id
    ensures Enabled(s, EvictIndex(key)) && Enabled(Next(s, EvictIndex(key)), Store(id))
    ensures
      var s' := Next(Next(s, EvictIndex(key)), Store(id));
      var former := s.redis.pending[key].value;
      && Live(s'.redis, former, s'.clock) && Live(s'.redis, id, s'.clock) && former != id
      && s'.redis.invitations[former].value.key == key == s'.redis.invitations[id].value.key
  {
    assert s.issued[id].id == id;
  }

  /** In every run from the start, a membership is pending exactly when it carries an invitation and an expiry. */
  lemma PendingCarriesAnInvitation(clock: Time, es: seq<Event>, k: Key)
    requires IsRun(Init(clock), es)
    ensures
      var s := Run(Init(clock), es);
      k in s.rows ==>
        && (s.rows[k].status == Pending <==> s.rows[k].id.Some?)
        && (s.rows[k].status == Pending <==> s.rows[k].expires.Some?)
  {
    RunKeepsInv(Init(clock), es);
    assert RowOk(Run(Init(clock), es), k);
  }
}
