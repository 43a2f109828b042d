/**
 The outcomes of the undisturbed calls, spelled out field by field: who is eligible,
 what is accepted, and what each branch leaves in the store.
 */
module RobotActionOutcomes {
  import opened Options
  import opened CommandStore
  import opened RobotProtocol
  import opened RobotProtocolAlone

  /** A command goes on only in time, on a robot that is still owned, ONLINE, and heard of within the heartbeat time. */
  lemma EligibleSpelledOut(r: Record, env: Environment, now: Time, ttl: nat)
    ensures
      Eligible(r, env, now, ttl) <==>
      && now < r.deadline
      && env.context.Some? && env.context.value.group == r.group && env.context.value.map_ == Some(r.map_)
      && env.context.value.online
      && env.lastSeen.Some? && env.lastSeen.value <= now <= env.lastSeen.value + ttl
  {
  }

  /** The message names the saved command, attempt and action. */
  predicate Names(m: Message, r: Record) {
    m.id == r.id && m.attempt == r.attempt && m.action == r.action
  }

  lemma NamesIsMatching(m: Message, r: Record)
    ensures Names(m, r) <==> Matches(m, r)
  {
  }

  /** The holder is closed: the robot is free, and only the status, reason and time of its record have changed. */
  ghost predicate ClosedWith(k: Keys, k': Keys, r: Record, status: Status, reason: Option<string>, now: Time) {
    && k'.active == None && k'.dispatched == k.dispatched
    && (forall id :: id in k'.records <==> id in k.records)
    && (forall id :: id in k.records && id != r.id ==> k'.records[id] == k.records[id])
    && r.id in k'.records
    && var r' := k'.records[r.id];
       && r'.status == status && r'.reason == reason && r'.updatedAt == now
       && r'.id == r.id && r'.attempt == r.attempt && r'.action == r.action && r'.group == r.group
       && r'.map_ == r.map_ && r'.origin == r.origin && r'.target == r.target
       && r'.createdAt == r.createdAt && r'.deadline == r.deadline
  }

  /** Without a holder, or with one whose record is gone, at most the reservation disappears. */
  lemma NoHolderSpelledOut(k: Keys, m: Message, env: Environment, now: Time, c: Config, delivery: Delivery)
    requires k.active.None? || k.active.value !in k.records
    ensures
      var empty := Keys(None, k.records, k.position, k.dispatched);
      && (m.Acknowledgement? ==> AcknowledgementOutcome(k, m, env, now, c) == empty)
      && (m.Command? ==> CommandOutcome(k, m, env, now, c, delivery) == empty)
      && ReconcileOutcome(k, env, now, c) == empty
  {
  }

  /** A message for another command, attempt or action changes nothing. */
  lemma OtherMessagesChangeNothing(k: Keys, m: Message, env: Environment, now: Time, c: Config, delivery: Delivery)
    requires k.active.Some? && k.active.value in k.records && !Names(m, k.records[k.active.value])
    ensures m.Acknowledgement? ==> AcknowledgementOutcome(k, m, env, now, c) == k
    ensures m.Command? ==> CommandOutcome(k, m, env, now, c, delivery) == k
  {
  }

  /** Any call closes an ineligible holder: TIMED_OUT after the deadline, else CANCELLED with the first reason. */
  lemma IneligibleHolderSpelledOut(k: Keys, m: Message, env: Environment, now: Time, c: Config, delivery: Delivery)
    requires k.active.Some? && k.active.value in k.records && WellKeyed(k)
    requires !Eligible(k.records[k.active.value], env, now, c.heartbeatTtl)
    ensures
      var r := k.records[k.active.value];
      var foreign := env.context.None? || env.context.value.group != r.group || env.context.value.map_ != Some(r.map_);
      var status := if now >= r.deadline then TimedOut else Cancelled;
      var reason :=
        if now >= r.deadline then "Acknowledgement or dispatch timeout"
        else if foreign then "Robot ownership or map changed" else "Robot is offline or stale";
      var k' := ReconcileOutcome(k, env, now, c);
      && ClosedWith(k, k', r, status, Some(reason), now) && k'.position == k.position
      && (m.Acknowledgement? && Names(m, r) ==> AcknowledgementOutcome(k, m, env, now, c) == k')
      && (m.Command? && Names(m, r) ==> CommandOutcome(k, m, env, now, c, delivery) == k')
  {
  }

  /** The acknowledgement of an eligible holder, in every case. */
  lemma AcknowledgementSpelledOut(k: Keys, m: Message, env: Environment, now: Time, c: Config)
    requires k.active.Some? && k.active.value in k.records && WellKeyed(k)
    requires m.Acknowledgement? && Names(m, k.records[k.active.value])
    requires Eligible(k.records[k.active.value], env, now, c.heartbeatTtl)
    ensures
      var r, k' := k.records[k.active.value], AcknowledgementOutcome(k, m, env, now, c);
      && (r.status != AwaitingAck ==> k' == k)
      && (r.status == AwaitingAck && m.ack ==>
            && ClosedWith(k, k', r, Succeeded, None, now)
            && k'.position == Some(Position(r.group, r.map_, r.target, r.id, now)))
      && (r.status == AwaitingAck && !m.ack && r.attempt >= 4 ==>
            && ClosedWith(k, k', r, Failed, Some("Robot action failed after three retries"), now)
            && k'.position == k.position)
      && (r.status == AwaitingAck && !m.ack && r.attempt < 4 ==>
            && k'.active == k.active && k'.position == k.position && k'.dispatched == k.dispatched
            && k'.records ==
               k.records[r.id := Record(
                 r.id, r.attempt + 1, r.action, r.group, r.map_, r.origin, r.target, Queued,
                 r.createdAt, now, now + c.timeout, r.reason)])
  {
  }

  /**
   The dispatch of an eligible holder.  It is due for a queued command, and for one
   that awaits its ACK without a marker.  Confirmed, it leaves the intent and the
   marker; failed in time, exactly the record there was.
   */
  lemma DispatchSpelledOut(k: Keys, m: Message, env: Environment, now: Time, c: Config, delivery: Delivery)
    requires k.active.Some? && k.active.value in k.records && WellKeyed(k)
    requires m.Command? && Names(m, k.records[k.active.value])
    requires Eligible(k.records[k.active.value], env, now, c.heartbeatTtl)
    ensures
      var r, k' := k.records[k.active.value], CommandOutcome(k, m, env, now, c, delivery);
      var due := r.status == Queued && c.timeout > 0;
      var again := r.status == AwaitingAck && (r.id, r.attempt) !in k.dispatched;
      var mark := {(r.id, r.attempt)};
      && k'.active == k.active && k'.position == k.position
      && (r.status != Queued && !again ==> k' == k)
      && (due && delivery.Confirmed? ==>
            && k'.dispatched == k.dispatched + mark
            && k'.records ==
               k.records[r.id := Record(
                 r.id, r.attempt, r.action, r.group, r.map_, r.origin, r.target, AwaitingAck,
                 r.createdAt, now, now + c.timeout, r.reason)])
      && (again && delivery.Confirmed? ==> k'.dispatched == k.dispatched + mark && k'.records == k.records)
      && ((due || again) && !delivery.Confirmed? ==>
            && k'.records == k.records
            && k'.dispatched == if delivery == MarkFailed(true) then k.dispatched + mark else k.dispatched)
      && (r.status == Queued && c.timeout == 0 ==>
            && k'.dispatched == k.dispatched
            && k'.records == k.records[r.id := r.(status := AwaitingAck, updatedAt := now, deadline := now)])
  {
    assert k.records[k.active.value := k.records[k.active.value]] == k.records;
  }

  /** Who holds the robot, when a saved intent is sent again, and when a dispatch ends in an exception. */
  lemma DeliverySpelledOut(k: Keys, r: Record, now: Time, c: Config, delivery: Delivery)
    ensures Holder(k).Some? <==> k.active.Some? && k.active.value in k.records
    ensures Holder(k).Some? ==> Holder(k).value == k.records[k.active.value]
    ensures Resends(k, r) <==> r.status == AwaitingAck && (r.id, r.attempt) !in k.dispatched
    ensures
      Raises(r, now, c, delivery) <==>
      !delivery.Confirmed? || (if r.status == Queued then c.timeout == 0 else r.deadline <= now)
  {
  }

  /** An eligible holder is left alone by reconciliation. */
  lemma ReconciliationSparesTheEligible(k: Keys, env: Environment, now: Time, c: Config)
    requires k.active.Some? && k.active.value in k.records
    requires Eligible(k.records[k.active.value], env, now, c.heartbeatTtl)
    ensures ReconcileOutcome(k, env, now, c) == k
  {
  }

  /** Time advances, Postgres and heartbeat change, processes start and crash, and keys are lost, at any moment. */
  lemma SurroundingsSpelledOut(w: World, e: Event)
    requires !e.Step?
    ensures
      Enabled(w, e) <==>
      && (e.Tick? ==> w.now <= e.to)
      && (e.Start? ==>
            e.pid !in w.procs && (e.pc.ReadActive? || (e.pc.SubmitContext? && e.pc.action.distance > 0.0)))
    ensures
      Enabled(w, e) ==>
        var w' := Next(w, e);
        && w'.config == w.config && w'.now == (if e.Tick? then e.to else w.now)
        && w'.env == (if e.Observe? then e.env else w.env)
        && w'.procs == (if e.Start? then w.procs[e.pid := e.pc] else if e.Crash? then w.procs - {e.pid} else w.procs)
        && w'.keys.active == (if e.LoseActive? then None else w.keys.active)
        && w'.keys.records == (if e.LoseRecord? then w.keys.records - {e.id} else w.keys.records)
        && w'.keys.position == (if e.LosePosition? then None else w.keys.position)
        && w'.keys.dispatched == (if e.LoseMark? then w.keys.dispatched - {e.mark} else w.keys.dispatched)
  {
    if e.Crash? && e.pid !in w.procs {
      assert w.procs - {e.pid} == w.procs;
    }
  }

  /** The target lies the distance away from the origin, in the direction of the action and in no other. */
  predicate LiesInDirection(origin: Point, target: Point, a: CleaningAction) {
    && (a.direction == North ==> target.y == origin.y + a.distance && target.x == origin.x)
    && (a.direction == South ==> target.y == origin.y - a.distance && target.x == origin.x)
    && (a.direction == East ==> target.x == origin.x + a.distance && target.y == origin.y)
    && (a.direction == West ==> target.x == origin.x - a.distance && target.y == origin.y)
  }

  /** What a submission checks first. */
  lemma ReadySpelledOut(env: Environment, group: GroupId, now: Time, ttl: nat)
    ensures
      Ready(env, group, now, ttl) <==>
      && env.context.Some? && env.context.value.group == group && env.context.value.online
      && env.context.value.map_.Some? && env.context.value.size.Some?
      && env.lastSeen.Some? && env.lastSeen.value <= now <= env.lastSeen.value + ttl
  {
  }

  /** The origin of a submission: the stored position of this group and map, and otherwise the dock. */
  predicate StartsFrom(k: Keys, context: Context, group: GroupId, origin: Point) {
    if
      k.position.Some? && k.position.value.group == group && context.map_ == Some(k.position.value.map_)
    then origin == k.position.value.at
    else context.dock == Some(origin)
  }

  predicate OnTheMap(p: Point, size: Point) {
    0.0 <= p.x && p.x <= size.x && 0.0 <= p.y && p.y <= size.y
  }

  /** What an accepted submission reserves, field by field. */
  lemma DraftSpelledOut(
    k: Keys, action: CleaningAction, id: CommandId, env: Environment, group: GroupId, now: Time, c: Config)
    requires Ready(env, group, now, c.heartbeatTtl)
    ensures
      var context, draft := env.context.value, Drafted(k, action, id, env, group, now, c);
      draft.Some? ==>
        var r := draft.value;
        && StartsFrom(k, context, group, r.origin) && LiesInDirection(r.origin, r.target, action)
        && OnTheMap(r.target, context.size.value)
        && r.id == id && r.attempt == 1 && r.action == action && r.status == Queued && r.reason == None
        && r.group == group && Some(r.map_) == context.map_
        && r.createdAt == now && r.updatedAt == now && r.deadline == now + c.timeout
  {
  }

  /** And when it is accepted: the robot is free and from its origin the action stays on the map. */
  lemma DraftedExactlyWhen(
    k: Keys, action: CleaningAction, id: CommandId, env: Environment, group: GroupId, now: Time, c: Config,
    origin: Point, target: Point)
    requires Ready(env, group, now, c.heartbeatTtl)
    requires StartsFrom(k, env.context.value, group, origin) && LiesInDirection(origin, target, action)
    ensures
      Drafted(k, action, id, env, group, now, c).Some? <==>
      k.active.None? && OnTheMap(target, env.context.value.size.value)
  {
  }

  /** Without a position of this group and map, and without a dock, there is nowhere to start from. */
  lemma NowhereToStart(
    k: Keys, action: CleaningAction, id: CommandId, env: Environment, group: GroupId, now: Time, c: Config)
    requires Ready(env, group, now, c.heartbeatTtl)
    requires forall origin :: !StartsFrom(k, env.context.value, group, origin)
    ensures Drafted(k, action, id, env, group, now, c).None?
  {
    var origin := ResolveOrigin(k.position, env.context.value);
    assert origin.Some? ==> StartsFrom(k, env.context.value, group, origin.value);
  }
}
