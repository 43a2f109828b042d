/**
 What one process of the command protocol does when nothing comes between its steps:
 the whole outcome of a call as one function of the keys, and the proof that the
 steps of `RobotProtocol` add up to it.
 */
module RobotProtocolAlone {
  import opened Options
  import opened CommandStore
  import opened RobotProtocol

  /** How the device-facing part of a dispatch went; a failed call may have had its effect. */
  datatype Delivery = Confirmed | PublishFailed(took: bool) | MarkFailed(took: bool)

  /** The outcomes left open by a process, by the step they belong to. */
  datatype Plan = Plan(id: CommandId, delivery: Delivery)

  function Pick(plan: Plan, pc: Pc): Choice {
    match plan.delivery
    case Confirmed => Choice(plan.id, true, true)
    case PublishFailed(took) => Choice(plan.id, took, false)
    case MarkFailed(took) => if pc.Mark? then Choice(plan.id, took, false) else Choice(plan.id, true, true)
  }

  /** The first `steps` steps of one process with nothing in between; it stops where the process cannot run. */
  function RunAlone(w: World, pid: nat, plan: Plan, steps: nat): World
    requires pid in w.procs
    decreases steps
  {
    var e := Step(pid, Pick(plan, w.procs[pid]));
    if steps == 0 || !Enabled(w, e) then w
    else RunAlone(Next(w, e), pid, plan, steps - 1)
  }

  predicate CanRun(w: World, pc: Pc) {
    Runnable(pc) && (pc.SubmitReserve? ==> pc.draft.id !in w.history.reserved)
  }

  function After(w: World, e: Effect): World {
    w.(keys := e.keys, history := e.history)
  }

  /** The same steps without the table of processes. */
  function Alone(w: World, pc: Pc, plan: Plan, steps: nat): Effect
    decreases steps
  {
    if steps == 0 || !CanRun(w, pc) then Quiet(w, pc)
    else
      var e := Perform(w, pc, Pick(plan, pc));
      Alone(After(w, e), e.pc, plan, steps - 1)
  }

  lemma {:induction false} RunsAlone(w: World, pid: nat, plan: Plan, steps: nat)
    requires pid in w.procs
    ensures
      var a := Alone(w, w.procs[pid], plan, steps);
      RunAlone(w, pid, plan, steps) == After(w, a).(procs := w.procs[pid := a.pc])
    decreases steps
  {
    var pc := w.procs[pid];
    var e := Step(pid, Pick(plan, pc));
    if steps > 0 && Enabled(w, e) {
      var w', effect := Next(w, e), Perform(w, pc, Pick(plan, pc));
      RunsAlone(w', pid, plan, steps - 1);
      ProcessesDoNotMatter(w', After(w, effect), effect.pc, plan, steps - 1);
    } else {
      assert w.procs[pid := pc] == w.procs;
    }
  }

  lemma {:induction false} ProcessesDoNotMatter(w: World, v: World, pc: Pc, plan: Plan, steps: nat)
    requires w == v.(procs := w.procs)
    ensures Alone(w, pc, plan, steps) == Alone(v, pc, plan, steps)
    decreases steps
  {
    if steps > 0 && CanRun(w, pc) {
      var e := Perform(w, pc, Pick(plan, pc));
      SamePerform(w, v, pc, Pick(plan, pc));
      ProcessesDoNotMatter(After(w, e), After(v, e), e.pc, plan, steps - 1);
    }
  }

  lemma SamePerform(w: World, v: World, pc: Pc, choice: Choice)
    requires w == v.(procs := w.procs) && Runnable(pc)
    ensures Perform(w, pc, choice) == Perform(v, pc, choice)
  {
  }

  lemma {:induction false} DoneStaysDone(w: World, plan: Plan, steps: nat)
    ensures Alone(w, Done, plan, steps) == Quiet(w, Done)
    decreases steps
  {
    if steps > 0 {
      DoneStaysDone(w, plan, steps - 1);
    }
  }

  // ---------------------------------------------------------------- outcomes

  predicate Owns(context: Option<Context>, r: Record) {
    context.Some? && context.value.group == r.group && context.value.map_ == Some(r.map_)
  }

  predicate Eligible(r: Record, env: Environment, now: Time, ttl: nat) {
    now < r.deadline && Owns(env.context, r) && Live(env.context.value, env.lastSeen, now, ttl)
  }

  /** The command is finished, the robot is free and a confirmed position is stored. */
  function Closed(
    k: Keys, r: Record, status: Status, reason: Option<string>, position: Option<Position>, now: Time): Keys
  {
    k.(active := None,
    records := k.records[r.id := r.(status := status, updatedAt := now, reason := reason)],
    position := if position.Some? then position else k.position)
  }

  /** An ineligible holder is closed, as TIMED_OUT exactly when its deadline has passed. */
  function Ineligible(k: Keys, r: Record, env: Environment, now: Time): Keys {
    if now >= r.deadline then Closed(k, r, TimedOut, Some("Acknowledgement or dispatch timeout"), None, now)
    else if !Owns(env.context, r) then Closed(k, r, Cancelled, Some("Robot ownership or map changed"), None, now)
    else Closed(k, r, Cancelled, Some("Robot is offline or stale"), None, now)
  }

  /** The record of the command that holds the robot. */
  function Holder(k: Keys): Option<Record> {
    if k.active.Some? && k.active.value in k.records then Some(k.records[k.active.value]) else None
  }

  /** Without a holder's record only a dangling reservation is removed. */
  function Undangled(k: Keys): Keys {
    k.(active := None)
  }

  /** An eligible holder's answer: success with its position, failure at the fourth attempt, or the next attempt. */
  function Acknowledged(k: Keys, r: Record, ack: bool, now: Time, c: Config): Keys {
    if r.status != AwaitingAck then k
    else if ack then Closed(k, r, Succeeded, None, Some(Position(r.group, r.map_, r.target, r.id, now)), now)
    else if r.attempt >= MAX_ATTEMPTS then
      Closed(k, r, Failed, Some("Robot action failed after three retries"), None, now)
    else
      k.(records := k.records[r.id := r.(
      attempt := r.attempt + 1, status := Queued, updatedAt := now, deadline := now + c.timeout)])
  }

  function AcknowledgementOutcome(k: Keys, m: Message, env: Environment, now: Time, c: Config): Keys
    requires m.Acknowledgement?
  {
    if Holder(k).None? then Undangled(k)
    else
      var r := Holder(k).value;
      if !Matches(m, r) then k
      else if !Eligible(r, env, now, c.heartbeatTtl) then Ineligible(k, r, env, now)
      else Acknowledged(k, r, m.ack, now, c)
  }

  predicate Resends(k: Keys, r: Record) {
    r.status == AwaitingAck && (r.id, r.attempt) !in k.dispatched
  }

  /** The saved intent of a dispatch. */
  function Intended(r: Record, now: Time, c: Config): Record {
    if r.status == Queued then r.(status := AwaitingAck, updatedAt := now, deadline := now + c.timeout) else r
  }

  /** The dispatch raises exactly when it was not confirmed in time. */
  predicate Raises(r: Record, now: Time, c: Config, delivery: Delivery) {
    !(delivery.Confirmed? && now < Intended(r, now, c).deadline)
  }

  /**
   A confirmed dispatch leaves the intent and its marker; a failed one gives back the
   record there was, if there is still time for that.
   */
  function Dispatched(k: Keys, r: Record, now: Time, c: Config, delivery: Delivery): Keys {
    if r.status != Queued && !Resends(k, r) then k
    else
      var pending := Intended(r, now, c);
      var inTime := now < pending.deadline;
      var marked := inTime && (delivery.Confirmed? || (delivery.MarkFailed? && delivery.took));
      k.(records := k.records[r.id := if inTime && !delivery.Confirmed? then r else pending],
      dispatched := if marked then k.dispatched + {(r.id, r.attempt)} else k.dispatched)
  }

  function CommandOutcome(k: Keys, m: Message, env: Environment, now: Time, c: Config, delivery: Delivery): Keys
    requires m.Command?
  {
    if Holder(k).None? then Undangled(k)
    else
      var r := Holder(k).value;
      if !Matches(m, r) then k
      else if !Eligible(r, env, now, c.heartbeatTtl) then Ineligible(k, r, env, now)
      else Dispatched(k, r, now, c, delivery)
  }

  function ReconcileOutcome(k: Keys, env: Environment, now: Time, c: Config): Keys {
    if Holder(k).None? then Undangled(k)
    else if !Eligible(Holder(k).value, env, now, c.heartbeatTtl) then Ineligible(k, Holder(k).value, env, now)
    else k
  }

  /** What a submission checks before it reconciles. */
  predicate Ready(env: Environment, group: GroupId, now: Time, ttl: nat) {
    && env.context.Some? && env.context.value.group == group
    && Live(env.context.value, env.lastSeen, now, ttl)
    && env.context.value.map_.Some? && env.context.value.size.Some?
  }

  /** The record a submission reserves, if the robot is free, has an origin and the target is on its map. */
  function Drafted(
    k: Keys, action: CleaningAction, id: CommandId, env: Environment, group: GroupId, now: Time, c: Config)
    : Option<Record>
    requires Ready(env, group, now, c.heartbeatTtl)
  {
    var context := env.context.value;
    var origin := ResolveOrigin(k.position, context);
    if origin.None? || k.active.Some? then None
    else
      var target := Plus(origin.value, Displacement(action));
      if !InMap(context.size.value, target) then None
      else
        Some(Record(
          id, 1, action, group, context.map_.value, origin.value, target, Queued, now, now, now + c.timeout, None))
  }

  function SubmissionOutcome(
    k: Keys, action: CleaningAction, id: CommandId, env: Environment, group: GroupId, now: Time, c: Config): Keys
  {
    if !Ready(env, group, now, c.heartbeatTtl) then k
    else
      var k' := ReconcileOutcome(k, env, now, c);
      var draft := Drafted(k', action, id, env, group, now, c);
      if draft.None? then k' else ReserveScript(k', draft.value)
  }

  // ---------------------------------------------------------------- the steps add up

  /** Records are stored under their own id. */
  ghost predicate WellKeyed(k: Keys) {
    forall id :: id in k.records ==> k.records[id].id == id
  }

  lemma AloneTakes(w: World, pc: Pc, plan: Plan, steps: nat)
    requires steps > 0 && CanRun(w, pc)
    ensures
      var e := Perform(w, pc, Pick(plan, pc));
      Alone(w, pc, plan, steps) == Alone(After(w, e), e.pc, plan, steps - 1)
  {
  }

  lemma AloneReadsNoHolder(w: World, job: Option<Message>, plan: Plan, steps: nat)
    requires Holder(w.keys).None? && steps >= 3
    ensures Alone(w, ReadActive(job), plan, steps).keys == Undangled(w.keys)
  {
    hide Alone;
    AloneTakes(w, ReadActive(job), plan, steps);
    if w.keys.active.Some? {
      var id := w.keys.active.value;
      AloneTakes(w, ReadRecord(job, id), plan, steps - 1);
      AloneTakes(w, CleanUp(id), plan, steps - 2);
      DoneStaysDone(w.(keys := Undangled(w.keys)), plan, steps - 3);
    } else {
      DoneStaysDone(w, plan, steps - 1);
    }
  }

  lemma AloneReadsHolder(w: World, job: Option<Message>, plan: Plan, steps: nat)
    requires Holder(w.keys).Some? && steps >= 2
    ensures
      var r := Holder(w.keys).value;
      Alone(w, ReadActive(job), plan, steps) ==
      if job.Some? && !Matches(job.value, r) then Quiet(w, Done)
      else Alone(w, CheckDeadline(job, r), plan, steps - 2)
  {
    hide Alone;
    var r := Holder(w.keys).value;
    AloneTakes(w, ReadActive(job), plan, steps);
    AloneTakes(w, ReadRecord(job, w.keys.active.value), plan, steps - 1);
    DoneStaysDone(w, plan, steps - 2);
  }

  lemma AloneFinishes(
    w: World, r: Record, status: Status, reason: Option<string>, confirmed: Option<Position>, cause: Cause,
    plan: Plan, steps: nat)
    requires Holds(w.keys, r) && steps >= 2 && !cause.Dispatch?
    requires DeadlineGuarded(status) ==> w.now < r.deadline
    ensures
      Alone(w, StampFinish(r, status, reason, confirmed, cause), plan, steps).keys ==
      Closed(w.keys, r, status, reason, confirmed, w.now)
  {
    hide Alone;
    var r' := r.(status := status, updatedAt := w.now, reason := reason);
    AloneTakes(w, StampFinish(r, status, reason, confirmed, cause), plan, steps);
    AloneTakes(w, Cas(r, r', true, confirmed, cause), plan, steps - 1);
    DoneStaysDone(After(w, PerformCas(w, r, r', true, confirmed, cause)), plan, steps - 2);
  }

  lemma AloneRejects(w: World, job: Option<Message>, r: Record, plan: Plan, steps: nat)
    requires Holds(w.keys, r) && steps >= 5 && !Eligible(r, w.env, w.now, w.config.heartbeatTtl)
    ensures Alone(w, CheckDeadline(job, r), plan, steps).keys == Ineligible(w.keys, r, w.env, w.now)
  {
    hide Alone;
    AloneTakes(w, CheckDeadline(job, r), plan, steps);
    if w.now >= r.deadline {
      AloneFinishes(w, r, TimedOut, Some("Acknowledgement or dispatch timeout"), None, Expire, plan, steps - 1);
    } else {
      AloneTakes(w, CheckOwner(job, r), plan, steps - 1);
      if !Owns(w.env.context, r) {
        AloneFinishes(
          w, r, Cancelled, Some("Robot ownership or map changed"), None, Disown(w.env.context), plan, steps - 2);
      } else {
        AloneTakes(w, CheckLive(job, r, w.env.context.value), plan, steps - 2);
        AloneFinishes(
          w, r, Cancelled, Some("Robot is offline or stale"), None,
          Offline(w.env.context, w.env.lastSeen, w.now), plan, steps - 3);
      }
    }
  }

  lemma AloneAdmits(w: World, job: Option<Message>, r: Record, plan: Plan, steps: nat)
    requires steps >= 3 && Eligible(r, w.env, w.now, w.config.heartbeatTtl)
    ensures
      Alone(w, CheckDeadline(job, r), plan, steps) ==
      if job.None? then Quiet(w, Done) else Alone(w, Handle(job.value, r), plan, steps - 3)
  {
    hide Alone;
    AloneTakes(w, CheckDeadline(job, r), plan, steps);
    AloneTakes(w, CheckOwner(job, r), plan, steps - 1);
    AloneTakes(w, CheckLive(job, r, w.env.context.value), plan, steps - 2);
    DoneStaysDone(w, plan, steps - 3);
  }

  lemma AloneAcknowledges(w: World, m: Message, r: Record, plan: Plan, steps: nat)
    requires m.Acknowledgement? && Matches(m, r) && Holds(w.keys, r) && w.now < r.deadline && steps >= 3
    ensures Alone(w, Handle(m, r), plan, steps).keys == Acknowledged(w.keys, r, m.ack, w.now, w.config)
  {
    hide Alone;
    AloneTakes(w, Handle(m, r), plan, steps);
    if r.status != AwaitingAck {
      DoneStaysDone(w, plan, steps - 1);
    } else if m.ack {
      var position := Some(Position(r.group, r.map_, r.target, r.id, w.now));
      AloneFinishes(w, r, Succeeded, None, position, Confirm(m), plan, steps - 1);
    } else if m.attempt >= MAX_ATTEMPTS {
      AloneFinishes(
        w, r, Failed, Some("Robot action failed after three retries"), None, Exhaust(m), plan, steps - 1);
    } else {
      var retry := r.(attempt := m.attempt + 1, status := Queued, updatedAt := w.now);
      var saved := retry.(deadline := w.now + w.config.timeout);
      AloneTakes(w, StampDeadline(r, retry, Retry(m)), plan, steps - 1);
      AloneTakes(w, Cas(r, saved, false, None, Retry(m)), plan, steps - 2);
      DoneStaysDone(After(w, PerformCas(w, r, saved, false, None, Retry(m))), plan, steps - 3);
    }
  }

  /** From the publication on: `pending` is stored, `saved` is what was stored before. */
  lemma AlonePublishes(w: World, m: Message, pending: Record, saved: Record, plan: Plan, steps: nat)
    requires Holds(w.keys, pending) && saved.id == pending.id && saved.attempt == pending.attempt && steps >= 3
    requires Pending(saved.status)
    ensures
      var inTime := w.now < pending.deadline;
      var marked := inTime && (plan.delivery.Confirmed? || (plan.delivery.MarkFailed? && plan.delivery.took));
      Alone(w, Publish(m, pending, saved), plan, steps).keys ==
      w.keys.(
      records := if inTime && !plan.delivery.Confirmed? then w.keys.records[pending.id := saved] else w.keys.records,
      dispatched :=
        if marked then w.keys.dispatched + {(pending.id, pending.attempt)} else w.keys.dispatched)
  {
    hide Alone;
    AloneTakes(w, Publish(m, pending, saved), plan, steps);
    var e1 := PerformPublish(w, Publish(m, pending, saved), Pick(plan, Publish(m, pending, saved)));
    var w1 := After(w, e1);
    if e1.pc.Mark? {
      AloneTakes(w1, Mark(m, pending, saved), plan, steps - 1);
      var e2 := PerformPublish(w1, Mark(m, pending, saved), Pick(plan, Mark(m, pending, saved)));
      var w2 := After(w1, e2);
      if e2.pc.Done? {
        DoneStaysDone(w2, plan, steps - 2);
      } else {
        AloneRollsBack(w2, pending, saved, plan, steps - 2);
      }
    } else {
      AloneRollsBack(w1, pending, saved, plan, steps - 1);
    }
  }

  lemma AloneRollsBack(w: World, pending: Record, saved: Record, plan: Plan, steps: nat)
    requires Holds(w.keys, pending) && Pending(saved.status) && steps >= 1
    ensures
      Alone(w, Cas(pending, saved, false, None, Rollback), plan, steps).keys ==
      if w.now < pending.deadline then w.keys.(records := w.keys.records[pending.id := saved]) else w.keys
  {
    hide Alone;
    AloneTakes(w, Cas(pending, saved, false, None, Rollback), plan, steps);
    DoneStaysDone(After(w, PerformCas(w, pending, saved, false, None, Rollback)), plan, steps - 1);
  }

  lemma AloneDispatches(w: World, m: Message, r: Record, plan: Plan, steps: nat)
    requires m.Command? && Matches(m, r) && Holds(w.keys, r) && w.now < r.deadline && steps >= 6
    ensures Alone(w, Handle(m, r), plan, steps).keys == Dispatched(w.keys, r, w.now, w.config, plan.delivery)
  {
    hide Alone;
    AloneTakes(w, Handle(m, r), plan, steps);
    if r.status == Queued {
      var pending := Intended(r, w.now, w.config);
      var stamped := r.(status := AwaitingAck, updatedAt := w.now);
      AloneTakes(w, StampDeadline(r, stamped, Dispatch(m)), plan, steps - 1);
      AloneTakes(w, Cas(r, pending, false, None, Dispatch(m)), plan, steps - 2);
      var w' := After(w, PerformCas(w, r, pending, false, None, Dispatch(m)));
      AlonePublishes(w', m, pending, r, plan, steps - 3);
      assert w.keys.records[r.id := pending][r.id := r] == w.keys.records[r.id := r];
    } else if r.status == AwaitingAck {
      AloneTakes(w, CheckDispatched(m, r), plan, steps - 1);
      if Resends(w.keys, r) {
        AlonePublishes(w, m, r, r, plan, steps - 2);
        assert w.keys.records[r.id := r] == w.keys.records;
      } else {
        DoneStaysDone(w, plan, steps - 2);
      }
    } else {
      DoneStaysDone(w, plan, steps - 1);
    }
  }

  // ---------------------------------------------------------------- whole calls

  /** A process is started and runs for `steps` steps undisturbed. */
  function Call(w: World, pid: nat, entry: Pc, plan: Plan, steps: nat): World
    requires pid !in w.procs && Entry(entry)
  {
    RunAlone(Next(w, Start(pid, entry)), pid, plan, steps)
  }

  lemma CallIsAlone(w: World, pid: nat, entry: Pc, plan: Plan, steps: nat)
    requires pid !in w.procs && Entry(entry)
    ensures
      var a := Alone(w, entry, plan, steps);
      && Call(w, pid, entry, plan, steps) == After(w, a).(procs := w.procs[pid := a.pc])
  {
    var w' := Next(w, Start(pid, entry));
    RunsAlone(w', pid, plan, steps);
    ProcessesDoNotMatter(w', w, entry, plan, steps);
  }

  /** An acknowledgement handled without disturbance. */
  lemma AcknowledgementRunsAlone(w: World, pid: nat, m: Message, plan: Plan)
    requires pid !in w.procs && m.Acknowledgement? && WellKeyed(w.keys)
    ensures
      Call(w, pid, ReadActive(Some(m)), plan, 11).keys == AcknowledgementOutcome(w.keys, m, w.env, w.now, w.config)
  {
    hide Alone;
    hide Perform;
    hide Acknowledged;
    hide Dispatched;
    hide Ineligible;
    hide Call;
    hide Matches;
    CallIsAlone(w, pid, ReadActive(Some(m)), plan, 11);
    if Holder(w.keys).None? {
      AloneReadsNoHolder(w, Some(m), plan, 11);
    } else {
      var r := Holder(w.keys).value;
      AloneReadsHolder(w, Some(m), plan, 11);
      if Matches(m, r) {
        if Eligible(r, w.env, w.now, w.config.heartbeatTtl) {
          AloneAdmits(w, Some(m), r, plan, 9);
          AloneAcknowledges(w, m, r, plan, 6);
        } else {
          AloneRejects(w, Some(m), r, plan, 9);
        }
      }
    }
  }

  /** A command message handled without disturbance. */
  lemma CommandRunsAlone(w: World, pid: nat, m: Message, plan: Plan)
    requires pid !in w.procs && m.Command? && WellKeyed(w.keys)
    ensures
      Call(w, pid, ReadActive(Some(m)), plan, 11).keys ==
      CommandOutcome(w.keys, m, w.env, w.now, w.config, plan.delivery)
  {
    hide Alone;
    hide Perform;
    hide Acknowledged;
    hide Dispatched;
    hide Ineligible;
    hide Call;
    hide Matches;
    CallIsAlone(w, pid, ReadActive(Some(m)), plan, 11);
    if Holder(w.keys).None? {
      AloneReadsNoHolder(w, Some(m), plan, 11);
    } else {
      var r := Holder(w.keys).value;
      AloneReadsHolder(w, Some(m), plan, 11);
      if Matches(m, r) {
        if Eligible(r, w.env, w.now, w.config.heartbeatTtl) {
          AloneAdmits(w, Some(m), r, plan, 9);
          AloneDispatches(w, m, r, plan, 6);
        } else {
          AloneRejects(w, Some(m), r, plan, 9);
        }
      }
    }
  }

  /** A pass of the reconciler without disturbance. */
  lemma ReconcilerRunsAlone(w: World, pid: nat, plan: Plan)
    requires pid !in w.procs && WellKeyed(w.keys)
    ensures
      Call(w, pid, ReadActive(None), plan, 7).keys == ReconcileOutcome(w.keys, w.env, w.now, w.config)
  {
    hide Alone;
    hide Perform;
    hide Acknowledged;
    hide Dispatched;
    hide Ineligible;
    hide Call;
    hide Matches;
    CallIsAlone(w, pid, ReadActive(None), plan, 7);
    if Holder(w.keys).None? {
      AloneReadsNoHolder(w, None, plan, 7);
    } else {
      var r := Holder(w.keys).value;
      AloneReadsHolder(w, None, plan, 7);
      if Eligible(r, w.env, w.now, w.config.heartbeatTtl) {
        AloneAdmits(w, None, r, plan, 5);
      } else {
        AloneRejects(w, None, r, plan, 5);
      }
    }
  }

  /** A reconciler that runs undisturbed after the deadline times the holder out and frees the robot. */
  lemma ReconcilerReleasesExpiredHolder(w: World, pid: nat, plan: Plan)
    requires pid !in w.procs && WellKeyed(w.keys)
    requires Holder(w.keys).Some? && w.now >= Holder(w.keys).value.deadline
    ensures
      var id, k' := w.keys.active.value, Call(w, pid, ReadActive(None), plan, 7).keys;
      && k'.active == None && id in k'.records && k'.records[id].status == TimedOut
      && k'.position == w.keys.position
  {
    ReconcilerRunsAlone(w, pid, plan);
  }

  predicate Submitting(pc: Pc) {
    || pc.SubmitContext? || pc.SubmitLive? || pc.SubmitPosition? || pc.SubmitStamp? || pc.SubmitDeadline?
    || pc.SubmitReserve?
  }

  lemma NothingIsReserved(w: World, pc: Pc, choice: Choice)
    requires !Submitting(pc)
    ensures
      var e := Perform(w, pc, choice);
      !Submitting(e.pc) && e.history.reserved == w.history.reserved
  {
  }

  lemma {:induction false} ReservedStays(w: World, pc: Pc, plan: Plan, steps: nat)
    requires !Submitting(pc)
    ensures Alone(w, pc, plan, steps).history.reserved == w.history.reserved
    decreases steps
  {
    if steps > 0 {
      NothingIsReserved(w, pc, Pick(plan, pc));
      var e := Perform(w, pc, Pick(plan, pc));
      ReservedStays(After(w, e), e.pc, plan, steps - 1);
    }
  }

  lemma AloneAsks(w: World, group: GroupId, action: CleaningAction, plan: Plan)
    ensures
      Alone(w, SubmitContext(group, action), plan, 2) ==
      Quiet(
        w,
        if Ready(w.env, group, w.now, w.config.heartbeatTtl) then SubmitPosition(w.env.context.value, action) else Done)
  {
    hide Alone;
    AloneTakes(w, SubmitContext(group, action), plan, 2);
    if w.env.context.Some? && w.env.context.value.group == group {
      var context := w.env.context.value;
      AloneTakes(w, SubmitLive(context, action), plan, 1);
      StopsAfterNoSteps(w, Done, plan);
      StopsAfterNoSteps(w, SubmitPosition(context, action), plan);
    } else {
      DoneStaysDone(w, plan, 1);
    }
  }

  lemma StopsAfterNoSteps(w: World, pc: Pc, plan: Plan)
    ensures Alone(w, pc, plan, 0) == Quiet(w, pc)
  {
  }

  lemma AloneReserves(w: World, context: Context, action: CleaningAction, group: GroupId, plan: Plan)
    requires Ready(w.env, group, w.now, w.config.heartbeatTtl) && w.env.context == Some(context)
    requires plan.id !in w.history.reserved
    ensures
      var draft := Drafted(w.keys, action, plan.id, w.env, group, w.now, w.config);
      Alone(w, SubmitPosition(context, action), plan, 4).keys ==
      if draft.None? then w.keys else ReserveScript(w.keys, draft.value)
  {
    hide Alone;
    var seen, origin := w.keys.position, ResolveOrigin(w.keys.position, context);
    AloneTakes(w, SubmitPosition(context, action), plan, 4);
    if origin.None? || !InMap(context.size.value, Plus(origin.value, Displacement(action))) {
      DoneStaysDone(w, plan, 3);
    } else {
      var draft := Record(
        plan.id, 1, action, group, context.map_.value, origin.value, Plus(origin.value, Displacement(action)),
        Queued, w.now, w.now, w.now, None);
      var saved := draft.(deadline := w.now + w.config.timeout);
      AloneTakes(w, SubmitStamp(context, action, seen, origin.value), plan, 3);
      AloneTakes(w, SubmitDeadline(context, seen, draft), plan, 2);
      AloneTakes(w, SubmitReserve(context, seen, saved), plan, 1);
      StopsAfterNoSteps(After(w, PerformReserve(w, context, seen, saved)), Done, plan);
    }
  }

  /**
   A submission without disturbance: its own process up to the position, then a
   reconciliation of the robot, then the rest of the submission.
   */
  function SubmissionCall(
    w: World, pid: nat, other: nat, group: GroupId, action: CleaningAction, plan: Plan): World
    requires pid !in w.procs && other !in w.procs && pid != other && action.distance > 0.0
  {
    var w1 := Call(w, pid, SubmitContext(group, action), plan, 2);
    AsksAlone(w, pid, group, action, plan);
    if !Ready(w.env, group, w.now, w.config.heartbeatTtl) then w1
    else
      var w2 := Call(w1, other, ReadActive(None), plan, 7);
      CallIsAlone(w1, other, ReadActive(None), plan, 7);
      RunAlone(w2, pid, plan, 4)
  }

  lemma AsksAlone(w: World, pid: nat, group: GroupId, action: CleaningAction, plan: Plan)
    requires pid !in w.procs && action.distance > 0.0
    ensures
      Call(w, pid, SubmitContext(group, action), plan, 2) ==
      w.(procs := w.procs[pid :=
        if Ready(w.env, group, w.now, w.config.heartbeatTtl) then SubmitPosition(w.env.context.value, action)
        else Done])
  {
    hide Alone;
    hide Call;
    CallIsAlone(w, pid, SubmitContext(group, action), plan, 2);
    AloneAsks(w, group, action, plan);
  }

  lemma SubmissionRunsAlone(
    w: World, pid: nat, other: nat, group: GroupId, action: CleaningAction, plan: Plan)
    requires pid !in w.procs && other !in w.procs && pid != other && action.distance > 0.0
    requires WellKeyed(w.keys) && plan.id !in w.history.reserved
    ensures
      SubmissionCall(w, pid, other, group, action, plan).keys ==
      SubmissionOutcome(w.keys, action, plan.id, w.env, group, w.now, w.config)
  {
    hide Alone;
    hide Call;
    hide Perform;
    hide ReconcileOutcome;
    hide Drafted;
    AsksAlone(w, pid, group, action, plan);
    if Ready(w.env, group, w.now, w.config.heartbeatTtl) {
      var context := w.env.context.value;
      var w1 := w.(procs := w.procs[pid := SubmitPosition(context, action)]);
      ReconcilerRunsAlone(w1, other, plan);
      CallIsAlone(w1, other, ReadActive(None), plan, 7);
      ReservedStays(w1, ReadActive(None), plan, 7);
      var w2 := Call(w1, other, ReadActive(None), plan, 7);
      assert w2.procs[pid] == SubmitPosition(context, action);
      RunsAlone(w2, pid, plan, 4);
      AloneReserves(w2, context, action, group, plan);
    }
  }
}
