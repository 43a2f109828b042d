/**
 The service calls of the command protocol as they run when nothing interferes:
 methods that change the store in place.  Each one leaves what the processes of
 `RobotProtocol` leave when they run alone, so the steps of that protocol are the
 steps of these calls.
 */
module RobotActionService {
  import opened Options
  import opened CommandStore
  import opened RobotProtocol
  import opened RobotProtocolAlone
  import opened RobotActionOutcomes

  class RobotActionService {
    const store: RobotCommandStore
    const config: Config

    constructor (store: RobotCommandStore, config: Config)
      ensures this.store == store && this.config == config
    {
      this.store := store;
      this.config := config;
    }

    /** The state of the protocol in which the call is made. */
    ghost predicate Sees(w: World, env: Environment, now: Time)
      reads store
    {
      w.keys == store.View() && WellKeyed(w.keys) && w.env == env && w.now == now && w.config == config
    }

    method Finish(r: Record, status: Status, reason: Option<string>, position: Option<Position>, now: Time)
      returns (applied: bool)
      modifies store
      ensures
        applied <==> old(Holds(store.View(), r)) && (DeadlineGuarded(status) ==> now < r.deadline)
      ensures
        store.View() ==
        if applied then Closed(old(store.View()), r, status, reason, position, now) else old(store.View())
    {
      var updated := r.(status := status, updatedAt := now, reason := reason);
      applied := store.Transition(r, updated, true, position, now);
    }

    /** `_eligible`: an ineligible holder is closed with the reason that was found first. */
    method CheckEligible(r: Record, env: Environment, now: Time) returns (eligible: bool)
      modifies store
      ensures eligible <==> Eligible(r, env, now, config.heartbeatTtl)
      ensures
        store.View() ==
        if eligible || !old(Holds(store.View(), r)) then old(store.View())
        else Ineligible(old(store.View()), r, env, now)
    {
      if now >= r.deadline {
        var _ := Finish(r, TimedOut, Some("Acknowledgement or dispatch timeout"), None, now);
        return false;
      }
      if env.context.None? || env.context.value.group != r.group || env.context.value.map_ != Some(r.map_) {
        var _ := Finish(r, Cancelled, Some("Robot ownership or map changed"), None, now);
        return false;
      }
      if !Live(env.context.value, env.lastSeen, now, config.heartbeatTtl) {
        var _ := Finish(r, Cancelled, Some("Robot is offline or stale"), None, now);
        return false;
      }
      return true;
    }

    /** The branch of an eligible holder. */
    method Acknowledge(r: Record, message: Message, now: Time)
      requires message.Acknowledgement? && Matches(message, r) && Holds(store.View(), r) && now < r.deadline
      modifies store
      ensures store.View() == Acknowledged(old(store.View()), r, message.ack, now, config)
    {
      if r.status != AwaitingAck {
        return;
      }
      if message.ack {
        var position := Position(r.group, r.map_, r.target, r.id, now);
        var _ := Finish(r, Succeeded, None, Some(position), now);
      } else if message.attempt >= MAX_ATTEMPTS {
        var _ := Finish(r, Failed, Some("Robot action failed after three retries"), None, now);
      } else {
        var retry := r.(
          attempt := message.attempt + 1, status := Queued, updatedAt := now, deadline := now + config.timeout);
        var _ := store.Transition(r, retry, false, None, now);
      }
    }

    /** The acknowledgement of the holder: success, the next attempt, or failure at the fourth. */
    method ProcessAcknowledgement(
      message: Message, env: Environment, now: Time, ghost w: World, ghost pid: nat, ghost plan: Plan)
      requires message.Acknowledgement? && Sees(w, env, now) && pid !in w.procs
      modifies store
      ensures store.View() == AcknowledgementOutcome(old(store.View()), message, env, now, config)
      ensures store.View() == Call(w, pid, ReadActive(Some(message)), plan, 11).keys
    {
      AcknowledgementRunsAlone(w, pid, message, plan);
      hide Call;
      hide Acknowledged;
      hide Ineligible;
      hide Eligible;
      var active := store.Active();
      if active.None? {
        return;
      }
      var r := active.value;
      if !Matches(message, r) {
        return;
      }
      var eligible := CheckEligible(r, env, now);
      if !eligible {
        return;
      }
      Acknowledge(r, message, now);
    }

    /** Sends an intent that has been saved; an exception restores what was saved before. */
    method Send(pending: Record, saved: Record, now: Time, delivery: Delivery) returns (raised: bool)
      requires Holds(store.View(), pending) && saved.id == pending.id && Pending(saved.status)
      modifies store
      ensures raised <==> !(delivery.Confirmed? && now < pending.deadline)
      ensures
        var k := old(store.View());
        var inTime := now < pending.deadline;
        var marked := inTime && (delivery.Confirmed? || (delivery.MarkFailed? && delivery.took));
        store.View() ==
        k.(records := if inTime && raised then k.records[pending.id := saved] else k.records,
        dispatched := if marked then k.dispatched + {(pending.id, pending.attempt)} else k.dispatched)
    {
      raised := now >= pending.deadline || !delivery.Confirmed?;
      if now < pending.deadline && (delivery.Confirmed? || (delivery.MarkFailed? && delivery.took)) {
        store.MarkDispatched(pending);
      }
      if raised {
        var _ := store.Transition(pending, saved, false, None, now);
      }
    }

    /** The branch of an eligible holder: save the intent, unless it is saved already, and send it. */
    method Dispatch(r: Record, message: Message, now: Time, delivery: Delivery) returns (raised: bool)
      requires message.Command? && Matches(message, r) && Holds(store.View(), r) && now < r.deadline
      modifies store
      ensures store.View() == Dispatched(old(store.View()), r, now, config, delivery)
      ensures
        raised <==> (r.status == Queued || Resends(old(store.View()), r)) && Raises(r, now, config, delivery)
    {
      raised := false;
      ghost var k := store.View();
      var pending := r;
      if r.status == Queued {
        pending := r.(status := AwaitingAck, updatedAt := now, deadline := now + config.timeout);
        var saved := store.Transition(r, pending, false, None, now);
        // Undisturbed, the record and the deadline are what the checks saw.
        if !saved {
          assert false;
        }
      } else {
        var confirmed := store.Dispatched(r);
        if r.status != AwaitingAck || confirmed {
          return;
        }
      }
      raised := Send(pending, r, now, delivery);
      assert k.records[r.id := pending][r.id := r] == k.records[r.id := r];
      assert k.records[r.id := r] == k.records;
    }

    /**
     A dispatch.  A confirmed publication leaves the command AWAITING_ACK with its
     marker set; a failed one gives back exactly the record there was before.
     */
    method ProcessCommand(
      message: Message, env: Environment, now: Time, delivery: Delivery,
      ghost w: World, ghost pid: nat, ghost plan: Plan)
      returns (raised: bool)
      requires message.Command? && Sees(w, env, now) && pid !in w.procs && plan.delivery == delivery
      modifies store
      ensures store.View() == CommandOutcome(old(store.View()), message, env, now, config, delivery)
      ensures store.View() == Call(w, pid, ReadActive(Some(message)), plan, 11).keys
      ensures
        raised <==>
        && Holder(old(store.View())).Some?
        && var r := Holder(old(store.View())).value;
           && Matches(message, r) && Eligible(r, env, now, config.heartbeatTtl)
           && (r.status == Queued || Resends(old(store.View()), r)) && Raises(r, now, config, delivery)
    {
      CommandRunsAlone(w, pid, message, plan);
      hide Call;
      hide Dispatched;
      hide Ineligible;
      hide Eligible;
      hide Resends;
      hide Raises;
      raised := false;
      var active := store.Active();
      if active.None? {
        return;
      }
      var r := active.value;
      if !Matches(message, r) {
        return;
      }
      var eligible := CheckEligible(r, env, now);
      if !eligible {
        return;
      }
      raised := Dispatch(r, message, now, delivery);
    }

    /** `reconcile_robot`: closes an ineligible holder and reports whether saved intent must be published again. */
    method Reconcile(env: Environment, now: Time, ghost w: World, ghost pid: nat, ghost plan: Plan)
      returns (republish: Option<Message>)
      requires Sees(w, env, now) && pid !in w.procs
      modifies store
      ensures store.View() == ReconcileOutcome(old(store.View()), env, now, config)
      ensures store.View() == Call(w, pid, ReadActive(None), plan, 7).keys
      ensures
        republish.Some? <==>
        && Holder(old(store.View())).Some?
        && var r := Holder(old(store.View())).value;
           Eligible(r, env, now, config.heartbeatTtl) && (r.status == Queued || Resends(old(store.View()), r))
      ensures
        republish.Some? ==> republish.value.Command? && Matches(republish.value, Holder(old(store.View())).value)
    {
      ReconcilerRunsAlone(w, pid, plan);
      hide Call;
      republish := None;
      var active := store.Active();
      if active.None? {
        return;
      }
      var r := active.value;
      var eligible := CheckEligible(r, env, now);
      if !eligible {
        return;
      }
      var confirmed := store.Dispatched(r);
      if r.status == Queued || (r.status == AwaitingAck && !confirmed) {
        republish := Some(Command(r.id, r.attempt, r.action));
      }
    }

    /**
     A submission succeeds exactly when the robot is live and free, has an origin, and
     the target is on its map; a refused one leaves at most what its reconciliation did.
     */
    method Submit(
      group: GroupId, action: CleaningAction, id: CommandId, env: Environment, now: Time,
      ghost w: World, ghost pid: nat, ghost other: nat, ghost plan: Plan)
      returns (accepted: Option<Record>)
      requires action.distance > 0.0
      requires Sees(w, env, now) && pid !in w.procs && other !in w.procs && pid != other
      requires plan.id == id && id !in w.history.reserved
      modifies store
      ensures
        accepted ==
        if !Ready(env, group, now, config.heartbeatTtl) then None
        else Drafted(ReconcileOutcome(old(store.View()), env, now, config), action, id, env, group, now, config)
      ensures store.View() == SubmissionOutcome(old(store.View()), action, id, env, group, now, config)
      ensures store.View() == SubmissionCall(w, pid, other, group, action, plan).keys
      ensures
        accepted.Some? ==>
          var r, k, context := accepted.value, old(store.View()), env.context.value;
          && StartsFrom(k, context, group, r.origin) && LiesInDirection(r.origin, r.target, action)
          && context.size.Some? && OnTheMap(r.target, context.size.value)
          && store.active == Some(id) && id in store.records && store.records[id] == r
          && store.position == old(store.position) && store.dispatched == old(store.dispatched)
    {
      SubmissionRunsAlone(w, pid, other, group, action, plan);
      if Ready(env, group, now, config.heartbeatTtl) {
        DraftSpelledOut(
          ReconcileOutcome(store.View(), env, now, config), action, id, env, group, now, config);
        ReconciliationKeepsPosition(store.View(), env, now, config);
      }
      hide SubmissionCall;
      hide StartsFrom;
      hide ReconcileOutcome;
      hide Drafted;
      hide Live;
      if env.context.None? || env.context.value.group != group {
        return None;
      }
      var context := env.context.value;
      if !Live(context, env.lastSeen, now, config.heartbeatTtl) || context.map_.None? || context.size.None? {
        return None;
      }
      var _ := Reconcile(env, now, w, pid, plan);
      accepted := Reserve(context, group, action, id, env, now);
    }

    /** The rest of a submission after its reconciliation. */
    method Reserve(
      context: Context, group: GroupId, action: CleaningAction, id: CommandId, env: Environment, now: Time)
      returns (accepted: Option<Record>)
      requires Ready(env, group, now, config.heartbeatTtl) && env.context == Some(context)
      modifies store
      ensures accepted == Drafted(old(store.View()), action, id, env, group, now, config)
      ensures
        store.View() ==
        if accepted.None? then old(store.View()) else ReserveScript(old(store.View()), accepted.value)
    {
      var seen := store.position;
      var origin := ResolveOrigin(seen, context);
      if origin.None? {
        return None;
      }
      var target := Plus(origin.value, Displacement(action));
      if !InMap(context.size.value, target) {
        return None;
      }
      var record := Record(
        id, 1, action, group, context.map_.value, origin.value, target,
        Queued, now, now, now + config.timeout, None);
      var reserved := store.Reserve(record, seen);
      accepted := if reserved then Some(record) else None;
    }
  }

  lemma ReconciliationKeepsPosition(k: Keys, env: Environment, now: Time, c: Config)
    ensures ReconcileOutcome(k, env, now, c).position == k.position
    ensures ReconcileOutcome(k, env, now, c).dispatched == k.dispatched
  {
  }

  /** A submission is drafted exactly for a robot without an eligible holder, from its origin to a place on its map. */
  lemma DraftIsAdmissible(
    k: Keys, group: GroupId, action: CleaningAction, id: CommandId, env: Environment, now: Time, c: Config)
    requires Ready(env, group, now, c.heartbeatTtl)
    ensures
      var context := env.context.value;
      var free := Holder(k).None? || !Eligible(Holder(k).value, env, now, c.heartbeatTtl);
      var origin := ResolveOrigin(k.position, context);
      Drafted(ReconcileOutcome(k, env, now, c), action, id, env, group, now, c).Some? <==>
      free && origin.Some? && InMap(context.size.value, Plus(origin.value, Displacement(action)))
  {
  }
}
