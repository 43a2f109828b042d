/**
 The repositories of group membership and the service calls over them.  Each call
 runs undisturbed here, and is shown to be the corresponding run of `GroupProtocol`,
 so that everything proved of that protocol holds of these calls.
 */
module GroupService {
  import opened Options
  import opened Invitations
  import P = GroupProtocol

  function Named(ids: seq<MemberId>): set<MemberId> {
    set m | m in ids
  }

  lemma OneMoreOwner(rows: Rows, group: GroupId, owners: set<MemberId>, owner: MemberId)
    ensures
      CreateOwners(rows, group, owners + {owner}) ==
      CreateOwners(rows, group, owners)[(group, owner) := Row(Owner, Accepted, None, None)]
  {
  }

  class GroupMembersRepository {
    var rows: Rows

    constructor ()
      ensures rows == map[]
    {
      rows := map[];
    }

    /** Assigns the four invitation fields of every invited member's row, adding the rows that are missing. */
    method UpsertPendingInvitations(batch: seq<Invitation>, expires: Time)
      modifies this
      ensures rows == Upsert(old(rows), batch, expires)
      ensures forall k :: k in rows <==> k in old(rows) || Invites(batch, k)
      ensures forall k :: k in old(rows) && !Invites(batch, k) ==> rows[k] == old(rows)[k]
      ensures
        forall j: nat :: IsLast(batch, j) ==>
          batch[j].key in rows && IsInvited(rows[batch[j].key], batch[j], expires)
    {
      ghost var before := rows;
      UpsertSpelledOut(before, batch, expires);
      for n := 0 to |batch|
        invariant rows == Upsert(before, batch[..n], expires)
      {
        assert batch[..n + 1][..n] == batch[..n];
        var row := if batch[n].key in rows then rows[batch[n].key] else Row(Member, Accepted, None, None);
        row := row.(role := batch[n].role);
        row := row.(status := Pending, id := Some(batch[n].id), expires := Some(expires));
        rows := rows[batch[n].key := row];
      }
      assert batch[..|batch|] == batch;
    }

    method AcceptPendingInvitation(key: Key, id: InvitationId, now: Time) returns (row: Option<Row>)
      modifies this
      ensures rows == Accept(old(rows), key, id, now)
      ensures row == if Acceptable(old(rows), key, id, now) then Some(rows[key]) else None
      ensures
        row.Some? <==>
        && key in old(rows) && old(rows)[key].status == Pending && old(rows)[key].id == Some(id)
        && old(rows)[key].expires.Some? && now < old(rows)[key].expires.value
      ensures
        row.Some? ==>
          && row.value.role == old(rows)[key].role && row.value.status == Status.Accepted
          && row.value.id == None && row.value.expires == None
          && rows == old(rows)[key := row.value]
      ensures row.None? ==> rows == old(rows)
    {
      if Acceptable(rows, key, id, now) {
        rows := rows[key := rows[key].(status := Accepted, id := None, expires := None)];
        return Some(rows[key]);
      }
      return None;
    }

    method RejectExpiredInvitations(now: Time) returns (count: nat)
      modifies this
      ensures rows == RejectExpired(old(rows), now)
      ensures SweptClean(old(rows), rows, now)
      ensures count == |set k | k in old(rows) && Due(old(rows)[k], now)|
    {
      var due :=
        set k | k in rows && rows[k].status == Pending && rows[k].expires.Some? && rows[k].expires.value <= now;
      assert due == set k | k in rows && Due(rows[k], now);
      SweepSpelledOut(rows, now);
      rows := map k | k in rows ::
        if k in due then rows[k].(status := Rejected, id := None, expires := None) else rows[k];
      return |due|;
    }

    method UpdateGroupMemberRole(key: Key, role: Role) returns (row: Option<Row>)
      modifies this
      ensures rows == UpdateRole(old(rows), key, role)
      ensures row == if key in old(rows) && old(rows)[key].status == Accepted then Some(rows[key]) else None
      ensures row.Some? <==> key in old(rows) && old(rows)[key].status == Status.Accepted
      ensures row.Some? ==> row.value == old(rows)[key].(role := role) && rows == old(rows)[key := row.value]
      ensures row.None? ==> rows == old(rows)
    {
      if key in rows && rows[key].status == Accepted {
        rows := rows[key := rows[key].(role := role)];
        return Some(rows[key]);
      }
      return None;
    }

    /** The creator and the given users become owners; a user named twice gets one row. */
    method CreateOwnerRows(group: GroupId, owners: seq<MemberId>)
      modifies this
      ensures rows == CreateOwners(old(rows), group, Named(owners))
      ensures forall m :: m in owners ==> (group, m) in rows && rows[(group, m)] == Row(Owner, Accepted, None, None)
      ensures forall k :: k in rows ==> k in old(rows) || (k.0 == group && k.1 in owners)
      ensures
        forall k :: k in old(rows) && !(k.0 == group && k.1 in owners) ==> k in rows && rows[k] == old(rows)[k]
    {
      ghost var before := rows;
      for n := 0 to |owners|
        invariant rows == CreateOwners(before, group, Named(owners[..n]))
      {
        assert owners[..n + 1] == owners[..n] + [owners[n]];
        assert Named(owners[..n + 1]) == Named(owners[..n]) + {owners[n]};
        OneMoreOwner(before, group, Named(owners[..n]), owners[n]);
        hide CreateOwners;
        rows := rows[(group, owners[n]) := Row(Owner, Accepted, None, None)];
      }
      assert owners[..|owners|] == owners;
    }

    method HardDelete(key: Key) returns (found: bool)
      modifies this
      ensures rows == old(rows) - {key} && found == (key in old(rows))
    {
      found := key in rows;
      rows := rows - {key};
    }
  }

  class GroupInvitationRepository {
    var redis: Redis

    constructor ()
      ensures redis == Redis(map[], map[])
    {
      redis := Redis(map[], map[]);
    }

    /** The script that stores an invitation and drops the one its index names. */
    method ReplacePendingInvitation(inv: Invitation, now: Time)
      modifies this
      ensures redis == Replace(old(redis), inv, now)
      ensures inv.id in redis.invitations && redis.invitations[inv.id] == Stored(inv, now + 604800)
      ensures inv.key in redis.pending && redis.pending[inv.key] == Stored(inv.id, now + 604800)
      ensures
        forall id :: id != inv.id ==>
          (id in redis.invitations <==>
           && id in old(redis).invitations
           && !(inv.key in old(redis).pending && now < old(redis).pending[inv.key].expires
                && old(redis).pending[inv.key].value == id))
      ensures
        forall id :: id != inv.id && id in redis.invitations ==>
          redis.invitations[id] == old(redis).invitations[id]
      ensures redis.pending.Keys == old(redis).pending.Keys + {inv.key}
      ensures forall k :: k in old(redis).pending && k != inv.key ==> redis.pending[k] == old(redis).pending[k]
    {
      var oldId := Indexed(redis, inv.key, now);
      if oldId.Some? {
        redis := redis.(invitations := redis.invitations - {oldId.value});
      }
      redis := redis.(invitations := redis.invitations[inv.id := Stored(inv, now + EXPIRE_SECONDS)]);
      redis := redis.(pending := redis.pending[inv.key := Stored(inv.id, now + EXPIRE_SECONDS)]);
    }

    method Get(id: InvitationId, now: Time) returns (inv: Option<Invitation>)
      ensures inv == if Live(redis, id, now) then Some(redis.invitations[id].value) else None
      ensures inv.Some? <==> id in redis.invitations && now < redis.invitations[id].expires
    {
      inv := if Live(redis, id, now) then Some(redis.invitations[id].value) else None;
    }

    /** The script that forgets an invitation without touching a newer one's index. */
    method ConsumeInvitation(inv: Invitation, now: Time)
      modifies this
      ensures redis == Consume(old(redis), inv, now)
      ensures redis.invitations == old(redis).invitations - {inv.id}
      ensures
        var named :=
          && inv.key in old(redis).pending && old(redis).pending[inv.key].value == inv.id
          && now < old(redis).pending[inv.key].expires;
        redis.pending == old(redis).pending - if named then {inv.key} else {}
    {
      if Indexed(redis, inv.key, now) == Some(inv.id) {
        redis := redis.(pending := redis.pending - {inv.key});
      }
      redis := redis.(invitations := redis.invitations - {inv.id});
    }
  }

  // ---------------------------------------------------------------- requests

  datatype Answer =
    | Done | NoGroup | NotFound | Forbidden | EmptyBatch | BadRole | DuplicateEmail | UnknownUser | IneligibleUser
    | AlreadyMember

  datatype MemberRequest = MemberRequest(email: string, role: Role)

  /** `eligible` is an ACTIVE or PENDING account. */
  datatype User = User(id: MemberId, eligible: bool)

  type Users = map<string, User>

  predicate IsAccepted(rows: Rows, key: Key) {
    key in rows && rows[key].status == Accepted
  }

  /** An e-mail address belongs to one account. */
  ghost predicate OneAddressPerUser(users: Users) {
    forall a, b :: a in users && b in users && a != b ==> users[a].id != users[b].id
  }

  /** The request names distinct, known and eligible accounts. */
  ghost predicate Resolves(request: seq<MemberRequest>, users: Users) {
    && (forall k, l :: 0 <= k < l < |request| ==> request[k].email != request[l].email)
    && (forall k :: 0 <= k < |request| ==> request[k].email in users && users[request[k].email].eligible)
  }

  function Batch(group: GroupId, request: seq<MemberRequest>, users: Users, newIds: seq<InvitationId>)
    : (batch: seq<Invitation>)
    requires |newIds| == |request| && forall k :: 0 <= k < |request| ==> request[k].email in users
    ensures |batch| == |request|
    ensures
      forall k :: 0 <= k < |batch| ==>
        batch[k] == Invitation(newIds[k], (group, users[request[k].email].id), request[k].email, request[k].role)
  {
    seq(|request|, k requires 0 <= k < |request| =>
      Invitation(newIds[k], (group, users[request[k].email].id), request[k].email, request[k].role))
  }

  ghost predicate NewIds(newIds: seq<InvitationId>, issued: map<InvitationId, Invitation>) {
    && (forall k :: 0 <= k < |newIds| ==> newIds[k] !in issued)
    && (forall k, l :: 0 <= k < l < |newIds| ==> newIds[k] != newIds[l])
  }

  /** The scripts that succeeded, in the order of the batch. */
  ghost function Stores(batch: seq<Invitation>, stored: seq<bool>): seq<P.Event>
    requires |stored| == |batch|
  {
    if batch == [] then []
    else
      var n := |batch| - 1;
      Stores(batch[..n], stored[..n]) + if stored[n] then [P.Store(batch[n].id)] else []
  }

  // ---------------------------------------------------------------- runs

  lemma {:induction false} RunThen(s: P.State, es: seq<P.Event>, e: P.Event)
    requires P.IsRun(s, es) && P.Enabled(P.Run(s, es), e)
    ensures P.IsRun(s, es + [e]) && P.Run(s, es + [e]) == P.Next(P.Run(s, es), e)
    decreases |es|
  {
    hide P.Next;
    hide P.Enabled;
    if es == [] {
      assert es + [e] == [e] && [e][1..] == [];
    } else {
      assert (es + [e])[1..] == es[1..] + [e];
      RunThen(P.Next(s, es[0]), es[1..], e);
    }
  }

  lemma NothingHappens(s: P.State)
    ensures P.IsRun(s, []) && P.Run(s, []) == s
  {
  }

  class GroupService {
    const members: GroupMembersRepository
    const invitations: GroupInvitationRepository
    var groups: set<GroupId>
    /** The state of the protocol that this service is in. */
    ghost var protocol: P.State

    ghost predicate Valid()
      reads this, members, invitations
    {
      && P.Inv(protocol)
      && protocol.groups == groups && protocol.rows == members.rows && protocol.redis == invitations.redis
    }

    constructor (ghost clock: Time)
      ensures Valid() && protocol == P.Init(clock)
      ensures fresh(members) && fresh(invitations)
    {
      members := new GroupMembersRepository();
      invitations := new GroupInvitationRepository();
      groups := {};
      protocol := P.Init(clock);
    }

    /** The protocol takes the step whose effect the repositories already show. */
    ghost method Take(es: seq<P.Event>, e: P.Event, before: P.State)
      requires P.Inv(protocol) && P.IsRun(before, es) && protocol == P.Run(before, es)
      requires P.Enabled(protocol, e)
      modifies `protocol
      ensures protocol == P.Next(old(protocol), e) && P.Inv(protocol)
      ensures P.IsRun(before, es + [e]) && protocol == P.Run(before, es + [e])
    {
      P.NextKeepsInv(protocol, e);
      RunThen(before, es, e);
      protocol := P.Next(protocol, e);
    }

    /** `_create_group_members` of a new group: the creator and the named users own it. */
    method CreateGroup(group: GroupId, creator: MemberId, others: seq<MemberId>)
      requires Valid() && group !in groups
      modifies this, members
      ensures Valid()
      ensures
        var es := [P.CreateGroup(group, Named(others + [creator]))];
        P.IsRun(old(protocol), es) && protocol == P.Run(old(protocol), es)
      ensures groups == old(groups) + {group}
      ensures
        forall m :: m == creator || m in others ==>
          (group, m) in members.rows && members.rows[(group, m)] == Row(Owner, Accepted, None, None)
      ensures
        forall k :: k in members.rows && !(k.0 == group && (k.1 == creator || k.1 in others)) ==>
          k in old(members.rows) && members.rows[k] == old(members.rows)[k]
    {
      assert creator in Named(others + [creator]);
      members.CreateOwnerRows(group, others + [creator]);
      groups := groups + {group};
      NothingHappens(protocol);
      Take([], P.CreateGroup(group, Named(others + [creator])), protocol);
    }

    /**
     `invite_group_members`: one transaction for the rows, then one script per
     invitation; a script that fails leaves the others alone.  The batches that are
     accepted are exactly those the protocol allows.
     */
    method InviteGroupMembers(
      group: GroupId, request: seq<MemberRequest>, users: Users, newIds: seq<InvitationId>, stored: seq<bool>,
      now: Time)
      returns (answer: Answer)
      requires Valid() && now == protocol.clock && OneAddressPerUser(users)
      requires |newIds| == |stored| == |request| && NewIds(newIds, protocol.issued)
      modifies this, members, invitations
      ensures Valid()
      ensures
        answer == Done <==>
        Resolves(request, users) &&
        P.Enabled(old(protocol), P.Invite(group, Batch(group, request, users, newIds), now))
      ensures answer != Done ==> protocol == old(protocol)
      ensures
        answer == Done ==>
          var batch := Batch(group, request, users, newIds);
          var es := [P.Invite(group, batch, now)] + Stores(batch, stored);
          P.IsRun(old(protocol), es) && protocol == P.Run(old(protocol), es)
      ensures
        answer == Done ==>
          forall k :: 0 <= k < |request| ==>
            && request[k].email in users && users[request[k].email].eligible && Below(request[k].role, Admin)
            && var key := (group, users[request[k].email].id);
               && key in members.rows && members.rows[key].role == request[k].role
               && members.rows[key].status == Status.Pending
               && members.rows[key].id == Some(newIds[k]) && members.rows[key].expires == Some(now + 604800)
      ensures
        answer == Done ==>
          forall k :: k in old(members.rows) && (forall j :: 0 <= j < |request| && request[j].email in users ==>
              k != (group, users[request[j].email].id)) ==>
            k in members.rows && members.rows[k] == old(members.rows)[k]
    {
      if request == [] {
        return EmptyBatch;
      }
      if group !in groups {
        return NoGroup;
      }
      answer := CheckRequest(request, users);
      if answer != Done {
        return;
      }
      var batch := Batch(group, request, users, newIds);
      BatchIsAllowed(protocol, group, request, users, newIds, now);
      hide Resolves;
      hide P.Enabled;
      if exists k :: 0 <= k < |batch| && IsAccepted(members.rows, batch[k].key) {
        return AlreadyMember;
      }
      SendInvitations(group, batch, stored, now);
    }

    /** The rows of an allowed batch, then its scripts. */
    method SendInvitations(group: GroupId, batch: seq<Invitation>, stored: seq<bool>, now: Time)
      requires Valid() && now == protocol.clock && |stored| == |batch|
      requires P.Enabled(protocol, P.Invite(group, batch, now))
      modifies this`protocol, members, invitations
      ensures Valid()
      ensures
        var es := [P.Invite(group, batch, now)] + Stores(batch, stored);
        P.IsRun(old(protocol), es) && protocol == P.Run(old(protocol), es)
      ensures
        forall j :: 0 <= j < |batch| ==>
          batch[j].key in members.rows && IsInvited(members.rows[batch[j].key], batch[j], now + EXPIRE_SECONDS)
      ensures
        forall k :: k in old(members.rows) && !Invites(batch, k) ==>
          k in members.rows && members.rows[k] == old(members.rows)[k]
    {
      ghost var before := protocol;
      members.UpsertPendingInvitations(batch, now + EXPIRE_SECONDS);
      EachIsLast(before, group, batch, now);
      hide Invites;
      hide IsLast;
      hide IsInvited;
      NothingHappens(before);
      Take([], P.Invite(group, batch, now), before);
      assert [] + [P.Invite(group, batch, now)] == [P.Invite(group, batch, now)];
      InvitedAwait(before, group, batch, now);
      StoreInvitations(batch, stored, now, before, [P.Invite(group, batch, now)]);
    }

    /** The checks of the request itself, in the service's order. */
    method CheckRequest(request: seq<MemberRequest>, users: Users) returns (answer: Answer)
      ensures
        answer == Done <==>
        Resolves(request, users) && forall k :: 0 <= k < |request| ==> Invitable(request[k].role)
      ensures
        answer == Done <==>
        && (forall k, l :: 0 <= k < l < |request| ==> request[k].email != request[l].email)
        && forall k :: 0 <= k < |request| ==>
             && request[k].email in users && users[request[k].email].eligible
             && request[k].role in {Role.Guest, Role.Member, Role.Moderator}
      ensures answer == BadRole <==> exists k :: 0 <= k < |request| && !Invitable(request[k].role)
      ensures answer == DuplicateEmail ==> exists k, l :: 0 <= k < l < |request| && request[k].email == request[l].email
      ensures answer == UnknownUser ==> exists k :: 0 <= k < |request| && request[k].email !in users
      ensures
        answer == IneligibleUser ==>
          exists k :: 0 <= k < |request| && request[k].email in users && !users[request[k].email].eligible
      ensures answer in {Done, BadRole, DuplicateEmail, UnknownUser, IneligibleUser}
    {
      if exists k :: 0 <= k < |request| && !Invitable(request[k].role) {
        return BadRole;
      }
      var emails: set<string> := {};
      for n := 0 to |request|
        invariant emails == set k | 0 <= k < n :: request[k].email
        invariant forall k, l :: 0 <= k < l < n ==> request[k].email != request[l].email
      {
        if request[n].email in emails {
          return DuplicateEmail;
        }
        emails := emails + {request[n].email};
      }
      if exists k :: 0 <= k < |request| && request[k].email !in users {
        return UnknownUser;
      }
      if exists k :: 0 <= k < |request| && request[k].email in users && !users[request[k].email].eligible {
        return IneligibleUser;
      }
      return Done;
    }

    /** One script after the other; `stored` says which of them succeed. */
    method StoreInvitations(
      batch: seq<Invitation>, stored: seq<bool>, now: Time, ghost before: P.State, ghost done: seq<P.Event>)
      requires Valid() && now == protocol.clock && |stored| == |batch|
      requires P.IsRun(before, done) && protocol == P.Run(before, done)
      requires forall k, l :: 0 <= k < l < |batch| ==> batch[k].id != batch[l].id
      requires forall k :: 0 <= k < |batch| ==> Awaiting(protocol, batch[k])
      modifies this`protocol, invitations
      ensures Valid()
      ensures
        var es := done + Stores(batch, stored);
        P.IsRun(before, es) && protocol == P.Run(before, es)
    {
      ghost var es := done;
      assert done == done + Stores(batch[..0], stored[..0]);
      for n := 0 to |batch|
        invariant Valid() && now == protocol.clock
        invariant es == done + Stores(batch[..n], stored[..n])
        invariant P.IsRun(before, es) && protocol == P.Run(before, es)
        invariant forall k :: n <= k < |batch| ==> Awaiting(protocol, batch[k])
      {
        OneMoreStore(batch, stored, n, done);
        if stored[n] {
          assert Awaiting(protocol, batch[n]);
          invitations.ReplacePendingInvitation(batch[n], now);
          Take(es, P.Store(batch[n].id), before);
          es := es + [P.Store(batch[n].id)];
        }
      }
      assert batch[..|batch|] == batch && stored[..|stored|] == stored;
    }

    /**
     `validate_group_invitation`.  The recipient of a live invitation becomes, or
     already is, an accepted member; the invitation is then gone from Redis.
     */
    method ValidateGroupInvitation(id: InvitationId, email: string, now: Time) returns (answer: Answer)
      requires Valid() && now == protocol.clock
      modifies this`protocol, members, invitations
      ensures Valid()
      ensures answer in {Done, NotFound, Forbidden}
      ensures answer == Forbidden <==> Live(old(protocol).redis, id, now) && old(protocol).issued[id].email != email
      ensures
        answer == Done <==>
        && P.Enabled(old(protocol), P.Open(id, email))
        && var key := old(protocol).issued[id].key;
           Acceptable(old(protocol).rows, key, id, now) || IsAccepted(old(protocol).rows, key)
      ensures
        answer == Done ==>
          && id in protocol.issued && IsAccepted(protocol.rows, protocol.issued[id].key)
          && !Live(protocol.redis, id, now)
      ensures
        var es :=
          if !P.Enabled(old(protocol), P.Open(id, email)) then []
          else if answer == Done then [P.Open(id, email), P.Activate(id, now), P.Forget(id)]
          else [P.Open(id, email), P.Activate(id, now)];
        P.IsRun(old(protocol), es) && protocol == P.Run(old(protocol), es)
    {
      ghost var before := protocol;
      NothingHappens(protocol);
      var found := invitations.Get(id, now);
      if found.None? {
        return NotFound;
      }
      var inv := found.value;
      assert inv == protocol.issued[id] && inv.id == id;
      if inv.email != email {
        return Forbidden;
      }
      Take([], P.Open(id, email), before);
      assert [] + [P.Open(id, email)] == [P.Open(id, email)];
      var row := members.AcceptPendingInvitation(inv.key, inv.id, now);
      Take([P.Open(id, email)], P.Activate(id, now), before);
      assert [P.Open(id, email)] + [P.Activate(id, now)] == [P.Open(id, email), P.Activate(id, now)];
      if row.None? && !IsAccepted(members.rows, inv.key) {
        return NotFound;
      }
      invitations.ConsumeInvitation(inv, now);
      Take([P.Open(id, email), P.Activate(id, now)], P.Forget(id), before);
      assert [P.Open(id, email), P.Activate(id, now)] + [P.Forget(id)] ==
             [P.Open(id, email), P.Activate(id, now), P.Forget(id)];
      return Done;
    }

    /** `_get_manageable_group_member`: another member of an existing group, ranked below the requester. */
    method CheckManageable(key: Key, self: MemberId, requester: Option<Role>, acceptedOnly: bool)
      returns (answer: Answer)
      requires Valid()
      ensures
        answer == Done <==>
        && key.0 in groups && key.1 != self && requester.Some?
        && P.Manageable(protocol.rows, key, requester.value) && (acceptedOnly ==> IsAccepted(protocol.rows, key))
      ensures
        answer == Done <==>
        && key.0 in groups && key.1 != self && requester.Some? && key in members.rows
        && Below(members.rows[key].role, requester.value)
        && (acceptedOnly ==> members.rows[key].status == Status.Accepted)
      ensures answer == NoGroup <==> key.0 !in groups
      ensures
        answer == NotFound ==> key !in protocol.rows || (acceptedOnly && !IsAccepted(protocol.rows, key))
      ensures answer in {Done, NoGroup, NotFound, Forbidden}
    {
      if key.0 !in groups {
        return NoGroup;
      }
      if key.1 == self {
        return Forbidden;
      }
      if key !in members.rows || (acceptedOnly && members.rows[key].status != Accepted) {
        return NotFound;
      }
      if requester.Some? {
        RankIsTheHierarchy(members.rows[key].role, requester.value);
      }
      if requester.None? || Rank(members.rows[key].role) >= Rank(requester.value) {
        return Forbidden;
      }
      return Done;
    }

    /** `update_group_member`: an accepted member gets a role below the requester's. */
    method UpdateGroupMember(key: Key, self: MemberId, requester: Option<Role>, role: Role) returns (answer: Answer)
      requires Valid()
      modifies this`protocol, members
      ensures Valid()
      ensures
        answer == Done <==>
        key.1 != self && requester.Some? && P.Enabled(old(protocol), P.ApproveUpdate(key, requester.value, role))
      ensures answer != Done ==> protocol == old(protocol)
      ensures
        answer == Done ==>
          var es := [P.ApproveUpdate(key, requester.value, role), P.CommitUpdate(key, role)];
          && P.IsRun(old(protocol), es) && protocol == P.Run(old(protocol), es)
          && IsAccepted(protocol.rows, key) && protocol.rows[key].role == role
      ensures
        answer == Done <==>
        && key.0 in groups && key.1 != self && requester.Some? && key in old(members.rows)
        && old(members.rows)[key].status == Status.Accepted
        && Below(old(members.rows)[key].role, requester.value) && Below(role, requester.value)
      ensures
        members.rows ==
        if answer == Done then old(members.rows)[key := old(members.rows)[key].(role := role)] else old(members.rows)
    {
      answer := CheckManageable(key, self, requester, true);
      if answer != Done {
        return;
      }
      RankIsTheHierarchy(role, requester.value);
      if Rank(role) >= Rank(requester.value) {
        return Forbidden;
      }
      ghost var before, approve := protocol, P.ApproveUpdate(key, requester.value, role);
      NothingHappens(protocol);
      Take([], approve, before);
      assert [] + [approve] == [approve];
      var row := members.UpdateGroupMemberRole(key, role);
      Take([approve], P.CommitUpdate(key, role), before);
      assert [approve] + [P.CommitUpdate(key, role)] == [approve, P.CommitUpdate(key, role)];
      // Nothing came between the check and the update, so the row is still there.
      if row.None? {
        assert false;
      }
    }

    /** `delete_group_member`: a pending invitation that Redis still has is forgotten first, then the row goes. */
    method DeleteGroupMember(key: Key, self: MemberId, requester: Option<Role>, now: Time) returns (answer: Answer)
      requires Valid() && now == protocol.clock
      modifies this`protocol, members, invitations
      ensures Valid()
      ensures
        answer == Done <==>
        key.1 != self && requester.Some? && P.Enabled(old(protocol), P.ApproveDelete(key, requester.value))
      ensures answer != Done ==> protocol == old(protocol)
      ensures
        answer == Done ==>
          var row := old(protocol).rows[key];
          var forget :=
            if row.id.Some? && Live(old(protocol).redis, row.id.value, now) then [P.Forget(row.id.value)] else [];
          var es := [P.ApproveDelete(key, requester.value)] + forget + [P.CommitDelete(key)];
          && P.IsRun(old(protocol), es) && protocol == P.Run(old(protocol), es)
          && key !in protocol.rows && (row.id.Some? ==> !Live(protocol.redis, row.id.value, now))
      ensures
        answer == Done <==>
        && key.0 in groups && key.1 != self && requester.Some? && key in old(members.rows)
        && Below(old(members.rows)[key].role, requester.value)
      ensures members.rows == if answer == Done then old(members.rows) - {key} else old(members.rows)
      ensures
        answer == Done && old(members.rows)[key].id.Some? ==>
          invitations.redis.invitations.Keys ==
          old(invitations.redis).invitations.Keys -
          if Live(old(invitations.redis), old(members.rows)[key].id.value, now) then
            {old(members.rows)[key].id.value} else {}
    {
      answer := CheckManageable(key, self, requester, false);
      if answer != Done {
        return;
      }
      ghost var before, approve := protocol, P.ApproveDelete(key, requester.value);
      ghost var es := [approve];
      NothingHappens(protocol);
      Take([], approve, before);
      assert [] + [approve] == [approve];
      var target := members.rows[key];
      assert P.RowOk(protocol, key);
      if target.status == Pending && target.id.Some? {
        var inv := invitations.Get(target.id.value, now);
        if inv.Some? {
          assert inv.value == protocol.issued[target.id.value] && inv.value.id == target.id.value;
          invitations.ConsumeInvitation(inv.value, now);
          Take(es, P.Forget(target.id.value), before);
          es := es + [P.Forget(target.id.value)];
        }
      }
      var found := members.HardDelete(key);
      Take(es, P.CommitDelete(key), before);
      // Undisturbed, the row the check saw is still there.
      if !found {
        assert false;
      }
    }

    /** One pass of the expiry sweep. */
    method RejectExpiredGroupInvitations(now: Time) returns (count: nat)
      requires Valid() && now == protocol.clock
      modifies this`protocol, members
      ensures Valid()
      ensures P.IsRun(old(protocol), [P.Sweep(now)]) && protocol == P.Run(old(protocol), [P.Sweep(now)])
      ensures
        forall k :: k in protocol.rows && protocol.rows[k].status == Pending ==>
          protocol.rows[k].expires.Some? && now < protocol.rows[k].expires.value
      ensures SweptClean(old(members.rows), members.rows, now)
      ensures count == |set k | k in old(members.rows) && Due(old(members.rows)[k], now)|
    {
      NothingHappens(protocol);
      count := members.RejectExpiredInvitations(now);
      ghost var before := protocol;
      Take([], P.Sweep(now), protocol);
      assert [] + [P.Sweep(now)] == [P.Sweep(now)];
      forall k | k in protocol.rows ensures P.RowOk(protocol, k) {
      }
    }
  }

  /** The invitation is issued and its script has not run. */
  ghost predicate Awaiting(s: P.State, inv: Invitation) {
    inv.id in s.unstored && inv.id in s.issued && s.issued[inv.id] == inv
  }

  /** Of a request that resolves, the protocol allows the batch exactly when the remaining checks pass. */
  lemma BatchIsAllowed(
    s: P.State, group: GroupId, request: seq<MemberRequest>, users: Users, newIds: seq<InvitationId>, now: Time)
    requires |newIds| == |request| && NewIds(newIds, s.issued) && OneAddressPerUser(users) && now == s.clock
    requires Resolves(request, users)
    ensures
      var batch := Batch(group, request, users, newIds);
      P.Enabled(s, P.Invite(group, batch, now)) <==>
      && request != [] && group in s.groups && (forall k :: 0 <= k < |request| ==> Invitable(request[k].role))
      && !exists k :: 0 <= k < |batch| && IsAccepted(s.rows, batch[k].key)
  {
    var batch := Batch(group, request, users, newIds);
    if forall k :: 0 <= k < |request| ==> Invitable(request[k].role) {
      assert forall k :: 0 <= k < |batch| ==> Invitable(batch[k].role);
    } else {
      var k :| 0 <= k < |request| && !Invitable(request[k].role);
      assert !Invitable(batch[k].role);
    }
  }

  /** A batch that is allowed invites nobody twice. */
  lemma EachIsLast(s: P.State, group: GroupId, batch: seq<Invitation>, now: Time)
    requires P.Enabled(s, P.Invite(group, batch, now))
    ensures forall j: nat :: j < |batch| ==> IsLast(batch, j)
  {
  }

  lemma InvitedAwait(s: P.State, group: GroupId, batch: seq<Invitation>, now: Time)
    requires P.Enabled(s, P.Invite(group, batch, now))
    ensures forall k :: 0 <= k < |batch| ==> Awaiting(P.Next(s, P.Invite(group, batch, now)), batch[k])
  {
    P.IssuedInvitations(s.issued, batch);
  }

  lemma OneMoreStore(batch: seq<Invitation>, stored: seq<bool>, n: nat, done: seq<P.Event>)
    requires |stored| == |batch| && n < |batch|
    ensures
      done + Stores(batch[..n + 1], stored[..n + 1]) ==
      done + Stores(batch[..n], stored[..n]) + if stored[n] then [P.Store(batch[n].id)] else []
  {
    assert batch[..n + 1][..n] == batch[..n] && stored[..n + 1][..n] == stored[..n];
  }
}
