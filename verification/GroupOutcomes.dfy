/**
 What each transaction and script of group membership needs and does, field by field:
 when it is allowed, which row or key it writes, and that it leaves the others alone.
 */
module GroupOutcomes {
  import opened Options
  import opened Invitations
  import opened GroupProtocol

  /** Nothing but the rows may differ. */
  ghost predicate OnlyRows(s: State, s': State) {
    s' == s.(rows := s'.rows)
  }

  /** Every row but this one is as it was. */
  ghost predicate OtherRowsStay(s: State, s': State, key: Key) {
    && (forall k :: k != key ==> (k in s'.rows <==> k in s.rows))
    && (forall k :: k != key && k in s.rows ==> s'.rows[k] == s.rows[k])
  }

  /** A live invitation: its key is there and has not expired. */
  ghost predicate IsLive(s: State, id: InvitationId) {
    id in s.redis.invitations && s.clock < s.redis.invitations[id].expires
  }

  /** The invitation that the member's unexpired index key names. */
  ghost predicate IsIndexed(s: State, key: Key, id: InvitationId) {
    key in s.redis.pending && s.clock < s.redis.pending[key].expires && s.redis.pending[key].value == id
  }

  /** A group is created once and not empty; its members are the owners, and nobody else's row changes. */
  lemma CreationSpelledOut(s: State, e: Event)
    requires e.CreateGroup?
    ensures Enabled(s, e) <==> e.group !in s.groups && e.owners != {}
    ensures
      Enabled(s, e) ==>
        var s' := Next(s, e);
        && s' == s.(groups := s'.groups, rows := s'.rows) && s'.groups == s.groups + {e.group}
        && (forall m :: m in e.owners ==>
              (e.group, m) in s'.rows && s'.rows[(e.group, m)] == Row(Owner, Accepted, None, None))
        && (forall k :: k in s'.rows ==> k in s.rows || (k.0 == e.group && k.1 in e.owners))
        && (forall k :: k in s.rows && !(k.0 == e.group && k.1 in e.owners) ==>
              k in s'.rows && s'.rows[k] == s.rows[k])
  {
  }

  /** Which batches may be invited. */
  lemma InvitationAllowedExactlyWhen(s: State, e: Event)
    requires e.Invite?
    ensures
      Enabled(s, e) <==>
      && e.group in s.groups && e.batch != [] && e.at <= s.clock
      && (forall k :: 0 <= k < |e.batch| ==>
            && e.batch[k].key.0 == e.group && e.batch[k].role in {Guest, Member, Moderator}
            && (e.batch[k].key in s.rows ==> s.rows[e.batch[k].key].status != Accepted)
            && e.batch[k].id !in s.issued)
      && (forall k, l :: 0 <= k < l < |e.batch| ==>
            e.batch[k].key != e.batch[l].key && e.batch[k].id != e.batch[l].id)
  {
  }

  /** Every invited member's row waits seven days for its invitation, whose script is still to run. */
  lemma InvitationSpelledOut(s: State, e: Event)
    requires e.Invite? && Enabled(s, e)
    ensures
      var s' := Next(s, e);
      && s' == s.(rows := s'.rows, issued := s'.issued, unstored := s'.unstored)
      && (forall k :: 0 <= k < |e.batch| ==>
            && e.batch[k].key in s'.rows && IsInvited(s'.rows[e.batch[k].key], e.batch[k], e.at + 7 * 24 * 3600)
            && e.batch[k].id in s'.issued && s'.issued[e.batch[k].id] == e.batch[k]
            && e.batch[k].id in s'.unstored)
    ensures
      var s' := Next(s, e);
      && (forall k :: k in s'.rows ==> k in s.rows || Invites(e.batch, k))
      && (forall k :: k in s.rows && !Invites(e.batch, k) ==> k in s'.rows && s'.rows[k] == s.rows[k])
      && (forall id :: id in s.issued ==> id in s'.issued && s'.issued[id] == s.issued[id])
      && s.unstored <= s'.unstored
  {
    UpsertSpelledOut(s.rows, e.batch, e.at + EXPIRE_SECONDS);
    IssuedInvitations(s.issued, e.batch);
    hide Upsert;
    hide Issue;
    forall k | 0 <= k < |e.batch| ensures IsLast(e.batch, k) && Invites(e.batch, e.batch[k].key) {
    }
  }

  /** The script: the new invitation and its index live seven days, and the one the index named is gone. */
  lemma StorageSpelledOut(s: State, e: Event)
    requires e.Store?
    ensures Enabled(s, e) <==> e.id in s.unstored && e.id in s.issued
    ensures
      Enabled(s, e) ==>
        var s', inv := Next(s, e), s.issued[e.id];
        && s' == s.(redis := s'.redis, unstored := s'.unstored) && s'.unstored == s.unstored - {e.id}
        && inv.id in s'.redis.invitations
        && s'.redis.invitations[inv.id] == Stored(inv, s.clock + 7 * 24 * 3600)
        && inv.key in s'.redis.pending && s'.redis.pending[inv.key] == Stored(inv.id, s.clock + 7 * 24 * 3600)
        && (forall k :: k != inv.key ==> (k in s'.redis.pending <==> k in s.redis.pending))
        && (forall k :: k != inv.key && k in s.redis.pending ==> s'.redis.pending[k] == s.redis.pending[k])
        && (forall id :: id != inv.id ==>
              (id in s'.redis.invitations <==> id in s.redis.invitations && !IsIndexed(s, inv.key, id)))
        && (forall id :: id != inv.id && id in s'.redis.invitations ==>
              s'.redis.invitations[id] == s.redis.invitations[id])
  {
  }

  /** A live invitation can be read by the account it was sent to. */
  lemma OpeningSpelledOut(s: State, e: Event)
    requires e.Open?
    ensures Enabled(s, e) <==> IsLive(s, e.id) && s.redis.invitations[e.id].value.email == e.email
    ensures Enabled(s, e) ==> Next(s, e) == s.(accepting := s.accepting + {e.id})
  {
  }

  /** A row is accepted exactly when it waits for this invitation and the expiry has not come; no other row changes. */
  lemma ActivationSpelledOut(s: State, e: Event)
    requires e.Activate?
    ensures Enabled(s, e) <==> e.id in s.accepting && e.id in s.issued && e.at <= s.clock
    ensures
      Enabled(s, e) ==>
        var s', key := Next(s, e), s.issued[e.id].key;
        var waits :=
          && key in s.rows && s.rows[key].status == Pending && s.rows[key].id == Some(e.id)
          && s.rows[key].expires.Some? && e.at < s.rows[key].expires.value;
        && OnlyRows(s, s') && OtherRowsStay(s, s', key)
        && (!waits ==> s'.rows == s.rows)
        && (waits ==>
              && key in s'.rows && s'.rows[key].role == s.rows[key].role && s'.rows[key].status == Accepted
              && s'.rows[key].id == None && s'.rows[key].expires == None)
  {
  }

  /** Forgetting an invitation drops its key, and the member's index exactly when it names this invitation. */
  lemma ForgettingSpelledOut(s: State, e: Event)
    requires e.Forget?
    ensures Enabled(s, e) <==> e.id in s.issued
    ensures
      Enabled(s, e) ==>
        var s', inv := Next(s, e), s.issued[e.id];
        && s' == s.(redis := s'.redis)
        && s'.redis.invitations == s.redis.invitations - {inv.id}
        && s'.redis.pending == s.redis.pending - if IsIndexed(s, inv.key, inv.id) then {inv.key} else {}
  {
  }

  /** The sweep rejects exactly the rows whose expiry has come, keeping their role. */
  lemma SweepingSpelledOut(s: State, e: Event)
    requires e.Sweep?
    ensures Enabled(s, e) <==> e.at <= s.clock
    ensures Enabled(s, e) ==> OnlyRows(s, Next(s, e)) && SweptClean(s.rows, Next(s, e).rows, e.at)
    ensures Enabled(s, e) ==> forall k :: k in s.rows ==> (Next(s, e).rows[k] != s.rows[k] <==> Due(s.rows[k], e.at))
  {
    SweepSpelledOut(s.rows, e.at);
  }

  /** An update is approved for an accepted member ranked below the requester, to a role below the requester's. */
  lemma UpdateSpelledOut(s: State, e: Event)
    requires e.ApproveUpdate? || e.CommitUpdate?
    ensures
      e.ApproveUpdate? ==>
        (Enabled(s, e) <==>
         && e.key.0 in s.groups && e.key in s.rows && s.rows[e.key].status == Accepted
         && Below(s.rows[e.key].role, e.requester) && Below(e.role, e.requester))
    ensures e.ApproveUpdate? && Enabled(s, e) ==> Next(s, e) == s.(updates := s.updates + {(e.key, e.role)})
    ensures e.CommitUpdate? ==> (Enabled(s, e) <==> (e.key, e.role) in s.updates)
    ensures
      e.CommitUpdate? && Enabled(s, e) ==>
        var s' := Next(s, e);
        && s' == s.(rows := s'.rows, updates := s.updates - {(e.key, e.role)}) && OtherRowsStay(s, s', e.key)
        && (e.key in s'.rows <==> e.key in s.rows)
        && (e.key in s.rows && s.rows[e.key].status != Accepted ==> s'.rows[e.key] == s.rows[e.key])
        && (e.key in s.rows && s.rows[e.key].status == Accepted ==>
              && s'.rows[e.key].role == e.role && s'.rows[e.key].status == Accepted
              && s'.rows[e.key].id == s.rows[e.key].id && s'.rows[e.key].expires == s.rows[e.key].expires)
  {
    if e.ApproveUpdate? {
      RankIsTheHierarchy(e.role, e.requester);
      if e.key in s.rows {
        RankIsTheHierarchy(s.rows[e.key].role, e.requester);
      }
    }
  }

  /** A removal is approved for a member ranked below the requester; it takes exactly this row. */
  lemma RemovalSpelledOut(s: State, e: Event)
    requires e.ApproveDelete? || e.CommitDelete?
    ensures
      e.ApproveDelete? ==>
        (Enabled(s, e) <==> e.key.0 in s.groups && e.key in s.rows && Below(s.rows[e.key].role, e.requester))
    ensures e.ApproveDelete? && Enabled(s, e) ==> Next(s, e) == s.(deletions := s.deletions + {e.key})
    ensures e.CommitDelete? ==> (Enabled(s, e) <==> e.key in s.deletions)
    ensures
      e.CommitDelete? && Enabled(s, e) ==>
        var s' := Next(s, e);
        && s' == s.(rows := s'.rows, deletions := s.deletions - {e.key}) && OtherRowsStay(s, s', e.key)
        && e.key !in s'.rows
  {
    if e.ApproveDelete? && e.key in s.rows {
      RankIsTheHierarchy(s.rows[e.key].role, e.requester);
    }
  }

  /** Time only advances, and a lost key takes nothing else with it. */
  lemma SurroundingsSpelledOut(s: State, e: Event)
    requires e.Tick? || e.EvictInvitation? || e.EvictIndex?
    ensures Enabled(s, e) <==> (e.Tick? ==> s.clock <= e.to)
    ensures e.Tick? && Enabled(s, e) ==> Next(s, e) == s.(clock := e.to)
    ensures
      e.EvictInvitation? ==>
        Next(s, e) == s.(redis := Redis(s.redis.invitations - {e.id}, s.redis.pending))
    ensures
      e.EvictIndex? ==>
        Next(s, e) == s.(redis := Redis(s.redis.invitations, s.redis.pending - {e.key}))
  {
  }
}
