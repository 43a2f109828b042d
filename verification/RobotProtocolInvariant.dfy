/** What every reachable state of the robot command protocol satisfies, and why each step keeps it. */
module RobotProtocolInvariant {
  import opened Options
  import opened CommandStore
  import opened RobotProtocol

  type Reserved = map<CommandId, Reservation>

  /** The fields no transition may touch. */
  predicate SameIntent(a: Record, b: Record) {
    && a.id == b.id && a.action == b.action && a.group == b.group && a.map_ == b.map_
    && a.origin == b.origin && a.target == b.target && a.createdAt == b.createdAt
  }

  /** The latest deadline of a record at this attempt, counted from its reservation. */
  function LatestDeadline(at: Time, attempt: int, status: Status, timeout: nat): Time {
    if status == Queued then at + (2 * attempt - 1) * timeout else at + 2 * attempt * timeout
  }

  predicate GoodReservation(id: CommandId, v: Reservation, timeout: nat) {
    && v.record.id == id && v.record.attempt == 1 && v.record.status == Queued
    && v.record.deadline <= v.at + timeout
    && v.context.online && v.record.group == v.context.group && v.context.map_ == Some(v.record.map_)
    && ResolveOrigin(v.seen, v.context) == Some(v.record.origin)
    && v.record.target == Plus(v.record.origin, Displacement(v.record.action))
    && v.context.size.Some? && InMap(v.context.size.value, v.record.target)
  }

  /** A record as it may be stored or held as a snapshot, however stale. */
  predicate GoodRecord(h: Reserved, timeout: nat, r: Record) {
    && r.id in h
    && SameIntent(r, h[r.id].record)
    && 1 <= r.attempt <= MAX_ATTEMPTS
    && r.deadline <= LatestDeadline(h[r.id].at, r.attempt, r.status, timeout)
    && (r.status == Failed ==> r.attempt == MAX_ATTEMPTS)
  }

  /** The robot that `context` describes is no longer the one the command was given to. */
  predicate Foreign(context: Option<Context>, r: Record) {
    context.None? || context.value.group != r.group || context.value.map_ != Some(r.map_)
  }

  /** A terminal state, the position written with it, and the observation that justifies it. */
  predicate GoodFinish(
    h: Reserved, c: Config, now: Time, r: Record, status: Status, confirmed: Option<Position>, cause: Cause)
  {
    && GoodRecord(h, c.timeout, r)
    && (status != Succeeded ==> confirmed.None?)
    && match cause
       case Expire => status == TimedOut && r.deadline <= now
       case Disown(context) => status == Cancelled && Foreign(context, r)
       case Offline(context, lastSeen, at) =>
         && status == Cancelled && at <= now
         && context.Some? && !Live(context.value, lastSeen, at, c.heartbeatTtl)
       case Confirm(m) =>
         && status == Succeeded && r.status == AwaitingAck
         && m.Acknowledgement? && m.ack && Matches(m, r)
         && confirmed.Some?
         && confirmed.value.group == r.group && confirmed.value.map_ == r.map_
         && confirmed.value.at == r.target && confirmed.value.command == r.id
       case Exhaust(m) =>
         && status == Failed && r.status == AwaitingAck && r.attempt == MAX_ATTEMPTS
         && m.Acknowledgement? && !m.ack && Matches(m, r)
       case _ => false
  }

  predicate GoodStep(h: Reserved, timeout: nat, r: Record, updated: Record, cause: Cause) {
    && GoodRecord(h, timeout, r)
    && SameIntent(r, updated)
    && match cause
       case Retry(m) =>
         && r.status == AwaitingAck && m.Acknowledgement? && !m.ack && Matches(m, r)
         && r.attempt < MAX_ATTEMPTS && updated.attempt == r.attempt + 1 && updated.status == Queued
       case Dispatch(m) =>
         && r.status == Queued && m.Command? && Matches(m, r)
         && updated.attempt == r.attempt && updated.status == AwaitingAck
       case _ => false
  }

  predicate GoodCas(
    h: Reserved, c: Config, now: Time,
    current: Record, updated: Record, terminal: bool, confirmed: Option<Position>, cause: Cause)
  {
    if cause.Rollback? then
      && !terminal && confirmed.None?
      && GoodRecord(h, c.timeout, current) && current.status == AwaitingAck
      && GoodRecord(h, c.timeout, updated) && Pending(updated.status)
      && SameIntent(current, updated) && updated.attempt == current.attempt
    else if cause.Retry? || cause.Dispatch? then
      && !terminal && confirmed.None?
      && GoodStep(h, c.timeout, current, updated, cause)
      && updated.deadline <= now + c.timeout
    else
      && terminal
      && SameIntent(current, updated) && updated.attempt == current.attempt && updated.deadline == current.deadline
      && GoodFinish(h, c, now, current, updated.status, confirmed, cause)
  }

  predicate GoodDispatch(h: Reserved, timeout: nat, m: Message, pending: Record, saved: Record) {
    && m.Command? && Matches(m, pending)
    && GoodRecord(h, timeout, pending) && pending.status == AwaitingAck
    && GoodRecord(h, timeout, saved) && Pending(saved.status)
    && SameIntent(pending, saved) && saved.attempt == pending.attempt
  }

  /** The envelope of this attempt has left for the device. */
  ghost predicate Sent(published: set<Publication>, id: CommandId, attempt: int) {
    exists p :: p in published && p.envelope.id == id && p.envelope.attempt == attempt
  }

  predicate GoodDraft(context: Context, seen: Option<Position>, d: Record) {
    && d.attempt == 1 && d.status == Queued
    && context.online && d.group == context.group && context.map_ == Some(d.map_)
    && ResolveOrigin(seen, context) == Some(d.origin)
    && d.target == Plus(d.origin, Displacement(d.action))
    && context.size.Some? && InMap(context.size.value, d.target)
  }

  /** What a process knows; it mentions only facts that later steps of others cannot undo. */
  ghost predicate PcOk(h: History, c: Config, now: Time, pc: Pc) {
    match pc
    case SubmitPosition(context, action) => context.online && context.map_.Some? && context.size.Some?
    case SubmitStamp(context, action, seen, origin) =>
      && context.online && context.map_.Some? && context.size.Some?
      && ResolveOrigin(seen, context) == Some(origin)
      && InMap(context.size.value, Plus(origin, Displacement(action)))
    case SubmitDeadline(context, seen, draft) => GoodDraft(context, seen, draft)
    case SubmitReserve(context, seen, draft) => GoodDraft(context, seen, draft) && draft.deadline <= now + c.timeout
    case CheckDeadline(job, r) => GoodRecord(h.reserved, c.timeout, r) && (job.Some? ==> Matches(job.value, r))
    case CheckOwner(job, r) => GoodRecord(h.reserved, c.timeout, r) && (job.Some? ==> Matches(job.value, r))
    case CheckLive(job, r, _) => GoodRecord(h.reserved, c.timeout, r) && (job.Some? ==> Matches(job.value, r))
    case Handle(m, r) => GoodRecord(h.reserved, c.timeout, r) && Matches(m, r)
    case CheckDispatched(m, r) => GoodDispatch(h.reserved, c.timeout, m, r, r)
    case StampFinish(r, status, _, confirmed, cause) => GoodFinish(h.reserved, c, now, r, status, confirmed, cause)
    case StampDeadline(r, updated, cause) => GoodStep(h.reserved, c.timeout, r, updated, cause)
    case Cas(current, updated, terminal, confirmed, cause) =>
      GoodCas(h.reserved, c, now, current, updated, terminal, confirmed, cause)
    case Publish(m, pending, saved) => GoodDispatch(h.reserved, c.timeout, m, pending, saved)
    case Mark(m, pending, saved) =>
      GoodDispatch(h.reserved, c.timeout, m, pending, saved) && Sent(h.published, pending.id, pending.attempt)
    case _ => true
  }

  function Last(trail: seq<Position>): Option<Position> {
    if trail == [] then None else Some(trail[|trail| - 1])
  }

  /** The commands whose terminal transition was a success, in that order. */
  function Successes(finished: seq<Outcome>): seq<CommandId> {
    if finished == [] then []
    else
      var last := finished[|finished| - 1];
      Successes(finished[..|finished| - 1]) + (if last.status == Succeeded then [last.id] else [])
  }

  ghost predicate ReservationsOk(h: Reserved, timeout: nat) {
    forall id :: id in h ==> GoodReservation(id, h[id], timeout)
  }

  ghost predicate RecordsOk(k: Keys, h: Reserved, timeout: nat) {
    forall id :: id in k.records ==> k.records[id].id == id && GoodRecord(h, timeout, k.records[id])
  }

  ghost predicate NotFinished(finished: seq<Outcome>, id: CommandId) {
    forall i :: 0 <= i < |finished| ==> finished[i].id != id
  }

  /** Stored terminal records are exactly those of finished commands. */
  ghost predicate FinishedOk(k: Keys, h: History) {
    && (forall i, j :: 0 <= i < j < |h.finished| ==> h.finished[i].id != h.finished[j].id)
    && (forall o :: o in h.finished ==>
          && o.id in h.reserved && !Pending(o.status)
          && (o.id in k.records ==> k.records[o.id].status == o.status))
    && (forall id :: id in k.records && !Pending(k.records[id].status) ==>
          Outcome(id, k.records[id].status) in h.finished)
  }

  /** The command that holds the robot has not finished, and its origin is still the last confirmed position. */
  ghost predicate HolderOk(k: Keys, h: History) {
    k.active.Some? ==>
      && k.active.value in h.reserved
      && NotFinished(h.finished, k.active.value)
      && SeenOk(h.reserved[k.active.value].seen, Last(h.trail), h.positionLost)
  }

  predicate SeenOk(seen: Option<Position>, last: Option<Position>, lost: bool) {
    seen == last || (lost && seen.None?)
  }

  /** Each confirmed position is the target of a finished success that started from the one before. */
  ghost predicate TrailOk(h: History) {
    && seq(|h.trail|, i requires 0 <= i < |h.trail| => h.trail[i].command) == Successes(h.finished)
    && forall i :: 0 <= i < |h.trail| ==> TrailStep(h, i)
  }

  ghost predicate TrailStep(h: History, i: nat)
    requires i < |h.trail|
  {
    var p := h.trail[i];
    && p.command in h.reserved
    && p.at == h.reserved[p.command].record.target
    && p.group == h.reserved[p.command].record.group
    && p.map_ == h.reserved[p.command].record.map_
    && SeenOk(h.reserved[p.command].seen, Last(h.trail[..i]), h.positionLost)
  }

  ghost predicate PositionOk(k: Keys, h: History) {
    SeenOk(k.position, Last(h.trail), h.positionLost)
  }

  ghost predicate PublishedOk(h: History, timeout: nat) {
    forall p :: p in h.published ==> GoodPublication(h.reserved, timeout, p)
  }

  predicate GoodPublication(h: Reserved, timeout: nat, p: Publication) {
    && p.envelope.Command? && p.envelope.id in h
    && p.envelope.action == h[p.envelope.id].record.action
    && 1 <= p.envelope.attempt <= MAX_ATTEMPTS
    && p.at < LatestDeadline(h[p.envelope.id].at, p.envelope.attempt, AwaitingAck, timeout)
  }

  /** A dispatch marker means that this attempt's envelope was published. */
  ghost predicate MarksOk(k: Keys, h: History) {
    forall mark :: mark in k.dispatched ==> Sent(h.published, mark.0, mark.1)
  }

  ghost predicate SharedOk(k: Keys, h: History, timeout: nat) {
    && ReservationsOk(h.reserved, timeout)
    && RecordsOk(k, h.reserved, timeout)
    && FinishedOk(k, h)
    && HolderOk(k, h)
    && TrailOk(h)
    && PositionOk(k, h)
    && PublishedOk(h, timeout)
    && MarksOk(k, h)
  }

  ghost predicate Inv(w: World) {
    && SharedOk(w.keys, w.history, w.config.timeout)
    && forall pid :: pid in w.procs ==> PcOk(w.history, w.config, w.now, w.procs[pid])
  }

  // ---------------------------------------------------------------- stability

  ghost predicate Extends(h: Reserved, h': Reserved) {
    forall id :: id in h ==> id in h' && h'[id] == h[id]
  }

  ghost predicate Grows(h: History, h': History) {
    Extends(h.reserved, h'.reserved) && h.published <= h'.published
  }

  lemma PcOkIsStable(h: History, h': History, c: Config, now: Time, now': Time, pc: Pc)
    requires PcOk(h, c, now, pc) && Grows(h, h') && now <= now'
    ensures PcOk(h', c, now', pc)
  {
  }

  lemma HistoryGrows(w: World, pc: Pc, choice: Choice)
    requires Runnable(pc)
    requires pc.SubmitReserve? ==> pc.draft.id !in w.history.reserved
    ensures Grows(w.history, Perform(w, pc, choice).history)
  {
  }

  // ---------------------------------------------------------------- one step of one process

  /** The process that took the step still knows what its new program counter claims. */
  ghost predicate LocalOk(w: World, pc: Pc, choice: Choice)
    requires Runnable(pc)
  {
    var e := Perform(w, pc, choice);
    PcOk(e.history, w.config, w.now, e.pc)
  }

  lemma LocalStep(w: World, pc: Pc, choice: Choice)
    requires RecordsOk(w.keys, w.history.reserved, w.config.timeout)
    requires PcOk(w.history, w.config, w.now, pc)
    ensures LocalOk(w, pc, choice)
  {
    hide LocalOk;
    hide PcOk;
    if pc.Cas? {
      LocalCas(w, pc, choice);
    } else if pc.Handle? && pc.message.Acknowledgement? {
      LocalAcknowledgement(w, pc, choice);
    } else if pc.Handle? || pc.CheckDispatched? {
      LocalCommand(w, pc, choice);
    } else if pc.ReadActive? || pc.ReadRecord? || pc.CleanUp? {
      LocalRead(w, pc, choice);
    } else if pc.CheckDeadline? || pc.CheckOwner? {
      LocalCheck(w, pc, choice);
    } else if pc.CheckLive? {
      LocalLive(w, pc, choice);
    } else if pc.StampFinish? || pc.StampDeadline? {
      LocalStamp(w, pc, choice);
    } else if pc.Publish? || pc.Mark? {
      LocalPublish(w, pc, choice);
    } else if pc.Done? || pc.SubmitReserve? {
      LocalEnd(w, pc, choice);
    } else {
      LocalSubmit(w, pc, choice);
    }
  }

  lemma LocalEnd(w: World, pc: Pc, choice: Choice)
    requires pc.Done? || pc.SubmitReserve?
    ensures LocalOk(w, pc, choice)
  {
  }

  lemma LocalSubmit(w: World, pc: Pc, choice: Choice)
    requires pc.SubmitContext? || pc.SubmitLive? || pc.SubmitPosition? || pc.SubmitStamp? || pc.SubmitDeadline?
    requires PcOk(w.history, w.config, w.now, pc)
    ensures LocalOk(w, pc, choice)
  {
  }

  lemma LocalRead(w: World, pc: Pc, choice: Choice)
    requires pc.ReadActive? || pc.ReadRecord? || pc.CleanUp?
    requires RecordsOk(w.keys, w.history.reserved, w.config.timeout)
    ensures LocalOk(w, pc, choice)
  {
  }

  lemma LocalCheck(w: World, pc: Pc, choice: Choice)
    requires pc.CheckDeadline? || pc.CheckOwner?
    requires PcOk(w.history, w.config, w.now, pc)
    ensures LocalOk(w, pc, choice)
  {
    assert GoodRecord(w.history.reserved, w.config.timeout, pc.record);
    assert Perform(w, pc, choice) == PerformCheck(w, pc);
    hide GoodRecord;
    hide Matches;
    hide Perform;
  }

  lemma LocalLive(w: World, pc: Pc, choice: Choice)
    requires pc.CheckLive? && PcOk(w.history, w.config, w.now, pc)
    ensures LocalOk(w, pc, choice)
  {
  }

  lemma LocalAcknowledgement(w: World, pc: Pc, choice: Choice)
    requires pc.Handle? && pc.message.Acknowledgement?
    requires PcOk(w.history, w.config, w.now, pc)
    ensures LocalOk(w, pc, choice)
  {
  }

  lemma LocalCommand(w: World, pc: Pc, choice: Choice)
    requires (pc.Handle? && pc.message.Command?) || pc.CheckDispatched?
    requires PcOk(w.history, w.config, w.now, pc)
    ensures LocalOk(w, pc, choice)
  {
  }

  lemma LocalStamp(w: World, pc: Pc, choice: Choice)
    requires pc.StampFinish? || pc.StampDeadline?
    requires PcOk(w.history, w.config, w.now, pc)
    ensures LocalOk(w, pc, choice)
  {
  }

  lemma LocalPublish(w: World, pc: Pc, choice: Choice)
    requires pc.Publish? || pc.Mark?
    requires PcOk(w.history, w.config, w.now, pc)
    ensures LocalOk(w, pc, choice)
  {
  }

  lemma LocalCas(w: World, pc: Pc, choice: Choice)
    requires pc.Cas? && PcOk(w.history, w.config, w.now, pc)
    ensures LocalOk(w, pc, choice)
  {
    if CanTransition(w.keys, pc.current, pc.updated, w.now) {
      UpdatedIsGood(w.history, w.config, w.now, pc);
    }
  }

  /** A transition that passes its deadline guard writes a record within the bound of its own attempt. */
  lemma UpdatedIsGood(h: History, c: Config, now: Time, pc: Pc)
    requires pc.Cas? && PcOk(h, c, now, pc)
    requires DeadlineGuarded(pc.updated.status) ==> now < pc.current.deadline
    ensures GoodRecord(h.reserved, c.timeout, pc.updated)
  {
  }

  ghost predicate StepOk(w: World, pc: Pc, choice: Choice)
    requires Runnable(pc)
  {
    var e := Perform(w, pc, choice);
    SharedOk(e.keys, e.history, w.config.timeout)
  }

  lemma SharedStep(w: World, pc: Pc, choice: Choice)
    requires SharedOk(w.keys, w.history, w.config.timeout)
    requires PcOk(w.history, w.config, w.now, pc)
    requires pc.SubmitReserve? ==> pc.draft.id !in w.history.reserved
    ensures StepOk(w, pc, choice)
  {
    if pc.SubmitReserve? {
      if CanReserve(w.keys, pc.seen) {
        ReserveKeeps(w.keys, w.history, w.config.timeout, pc.draft, Reservation(pc.draft, pc.seen, pc.context, w.now));
      }
    } else if pc.Cas? {
      SharedCas(w, pc, choice);
    } else if pc.Publish? {
      PublishKeeps(w, pc.message, pc.pending);
    } else {
      if pc.Mark? {
        MarkKeeps(w, pc, choice);
      }
      OthersOnlyLoseKeys(w, pc, choice);
      var e := Perform(w, pc, choice);
      LossKeeps(w.keys, e.keys, w.history, w.config.timeout);
    }
  }

  lemma SharedCas(w: World, pc: Pc, choice: Choice)
    requires SharedOk(w.keys, w.history, w.config.timeout)
    requires pc.Cas? && PcOk(w.history, w.config, w.now, pc)
    ensures StepOk(w, pc, choice)
  {
    if CanTransition(w.keys, pc.current, pc.updated, w.now) {
      UpdatedIsGood(w.history, w.config, w.now, pc);
      if pc.terminal {
        FinishKeeps(w.keys, w.history, w.config.timeout, pc.current, pc.updated, pc.confirmed);
      } else {
        RewriteKeeps(w.keys, w.history, w.config.timeout, pc.current, pc.updated);
      }
    }
  }

  /** Only the two big scripts write records, positions or outcomes. */
  lemma OthersOnlyLoseKeys(w: World, pc: Pc, choice: Choice)
    requires Runnable(pc) && !pc.SubmitReserve? && !pc.Cas?
    ensures
      var e := Perform(w, pc, choice);
      && OnlyLosesKeys(w.keys, e.keys)
      && (e.keys.active != w.keys.active ==> w.keys.active.Some? && w.keys.active.value !in w.keys.records)
      && (!pc.Mark? ==> e.keys.dispatched == w.keys.dispatched)
      && e.history.(published := {}) == w.history.(published := {})
      && (!pc.Publish? ==> e.history == w.history)
  {
  }

  /** Nothing but the reservation and the markers may differ, and a reservation can only disappear. */
  predicate OnlyLosesKeys(k: Keys, k': Keys) {
    && (k'.active == k.active || k'.active == None)
    && k'.records == k.records && k'.position == k.position
  }

  lemma LossKeeps(k: Keys, k': Keys, h: History, timeout: nat)
    requires SharedOk(k, h, timeout) && OnlyLosesKeys(k, k') && MarksOk(k', h)
    ensures SharedOk(k', h, timeout)
  {
  }

  lemma MarkKeeps(w: World, pc: Pc, choice: Choice)
    requires MarksOk(w.keys, w.history)
    requires pc.Mark? && Sent(w.history.published, pc.pending.id, pc.pending.attempt)
    ensures MarksOk(Perform(w, pc, choice).keys, w.history)
  {
  }

  lemma PublishKeeps(w: World, m: Message, pending: Record)
    requires SharedOk(w.keys, w.history, w.config.timeout)
    requires m.Command? && Matches(m, pending) && pending.status == AwaitingAck
    requires GoodRecord(w.history.reserved, w.config.timeout, pending)
    ensures
      w.now < pending.deadline ==>
        SharedOk(
          w.keys, w.history.(published := w.history.published + {Publication(m, w.now)}), w.config.timeout)
  {
    if w.now < pending.deadline {
      var h' := w.history.(published := w.history.published + {Publication(m, w.now)});
      assert PublishedOk(h', w.config.timeout);
      assert MarksOk(w.keys, h') by {
        SentIsStable(w.history.published, h'.published);
      }
      assert TrailOk(h') by {
        TrailStepIsStable(w.history, h');
      }
    }
  }

  lemma SentIsStable(s: set<Publication>, s': set<Publication>)
    requires s <= s'
    ensures forall id, attempt :: Sent(s, id, attempt) ==> Sent(s', id, attempt)
  {
  }

  lemma TrailStepIsStable(h: History, h': History)
    requires TrailOk(h) && Extends(h.reserved, h'.reserved)
    requires h'.trail == h.trail && (h.positionLost ==> h'.positionLost)
    ensures forall i :: 0 <= i < |h'.trail| ==> TrailStep(h', i)
  {
    forall i | 0 <= i < |h'.trail| ensures TrailStep(h', i) {
      assert TrailStep(h, i);
    }
  }

  lemma ReserveKeeps(k: Keys, h: History, timeout: nat, draft: Record, v: Reservation)
    requires SharedOk(k, h, timeout)
    requires v.record == draft && GoodDraft(v.context, v.seen, draft) && draft.deadline <= v.at + timeout
    requires draft.id !in h.reserved && CanReserve(k, v.seen)
    ensures SharedOk(ReserveScript(k, draft), h.(reserved := h.reserved[draft.id := v]), timeout)
  {
    var h' := h.(reserved := h.reserved[draft.id := v]);
    var k' := ReserveScript(k, draft);
    assert Extends(h.reserved, h'.reserved);
    assert RecordsOk(k', h'.reserved, timeout) by { ReserveKeepsRecords(k, h.reserved, timeout, draft, v); }
    assert FinishedOk(k', h') by { ReserveKeepsFinished(k, h, draft, v); }
    assert TrailOk(h') by { TrailStepIsStable(h, h'); }
  }

  lemma ReserveKeepsRecords(k: Keys, h: Reserved, timeout: nat, draft: Record, v: Reservation)
    requires RecordsOk(k, h, timeout)
    requires v.record == draft && draft.attempt == 1 && draft.status == Queued && draft.deadline <= v.at + timeout
    requires draft.id !in h
    ensures RecordsOk(ReserveScript(k, draft), h[draft.id := v], timeout)
  {
  }

  lemma ReserveKeepsFinished(k: Keys, h: History, draft: Record, v: Reservation)
    requires FinishedOk(k, h) && draft.id !in h.reserved && draft.status == Queued
    ensures FinishedOk(ReserveScript(k, draft), h.(reserved := h.reserved[draft.id := v]))
  {
  }

  /** A pending record replaced by a pending record: dispatch, retry and rollback. */
  lemma RewriteKeeps(k: Keys, h: History, timeout: nat, current: Record, updated: Record)
    requires SharedOk(k, h, timeout)
    requires Holds(k, current) && updated.id == current.id
    requires Pending(updated.status) && GoodRecord(h.reserved, timeout, updated)
    ensures SharedOk(TransitionScript(k, current, updated, false, None), h, timeout)
  {
    var k' := TransitionScript(k, current, updated, false, None);
    assert FinishedOk(k', h) by {
      assert NotFinished(h.finished, current.id);
    }
  }

  /** What the bookkeeping needs to know about a terminal transition. */
  predicate Finishes(h: Reserved, r: Record, status: Status, confirmed: Option<Position>)
    requires r.id in h
  {
    && !Pending(status)
    && (status == Succeeded <==> confirmed.Some?)
    && (confirmed.Some? ==>
          && confirmed.value.command == r.id && confirmed.value.at == h[r.id].record.target
          && confirmed.value.group == h[r.id].record.group && confirmed.value.map_ == h[r.id].record.map_)
  }

  /** The terminal transition of the holder, with the confirmed position when it is a success. */
  lemma FinishKeeps(
    k: Keys, h: History, timeout: nat, current: Record, updated: Record, confirmed: Option<Position>)
    requires SharedOk(k, h, timeout)
    requires Holds(k, current) && updated.id == current.id
    requires current.id in h.reserved && Finishes(h.reserved, current, updated.status, confirmed)
    requires GoodRecord(h.reserved, timeout, updated)
    ensures
      SharedOk(
        TransitionScript(k, current, updated, true, confirmed), Recorded(h, updated, true, confirmed), timeout)
  {
    var h' := Recorded(h, updated, true, confirmed);
    var k' := TransitionScript(k, current, updated, true, confirmed);
    assert FinishedOk(k', h') by { FinishKeepsFinished(k, h, current, updated, confirmed); }
    assert TrailOk(h') by { FinishKeepsTrail(k, h, timeout, current, updated, confirmed); }
    assert PositionOk(k', h');
  }

  lemma FinishKeepsFinished(k: Keys, h: History, current: Record, updated: Record, confirmed: Option<Position>)
    requires FinishedOk(k, h) && HolderOk(k, h)
    requires Holds(k, current) && updated.id == current.id && !Pending(updated.status)
    ensures FinishedOk(TransitionScript(k, current, updated, true, confirmed), Recorded(h, updated, true, confirmed))
  {
    var h' := Recorded(h, updated, true, confirmed);
    assert NotFinished(h.finished, current.id);
    assert h'.finished[|h.finished|] == Outcome(updated.id, updated.status);
    forall id | id in h.finished ensures id in h'.finished {
    }
  }

  lemma FinishKeepsTrail(
    k: Keys, h: History, timeout: nat, current: Record, updated: Record, confirmed: Option<Position>)
    requires TrailOk(h) && HolderOk(k, h)
    requires Holds(k, current) && updated.id == current.id
    requires current.id in h.reserved && Finishes(h.reserved, current, updated.status, confirmed)
    ensures TrailOk(Recorded(h, updated, true, confirmed))
  {
    var h' := Recorded(h, updated, true, confirmed);
    assert h'.finished[..|h.finished|] == h.finished;
    forall i | 0 <= i < |h'.trail| ensures TrailStep(h', i) {
      if i < |h.trail| {
        assert TrailStep(h, i);
        assert h'.trail[..i] == h.trail[..i];
      } else {
        assert h'.trail[..i] == h.trail;
      }
    }
  }

  // ---------------------------------------------------------------- one event of the system

  lemma InitialInv(w: World)
    requires Initial(w)
    ensures Inv(w)
  {
  }

  lemma StepKeepsInv(w: World, pid: nat, choice: Choice)
    requires Inv(w) && Enabled(w, Step(pid, choice))
    ensures Inv(Next(w, Step(pid, choice)))
  {
    var w' := Next(w, Step(pid, choice));
    var pc := w.procs[pid];
    SharedStep(w, pc, choice);
    LocalStep(w, pc, choice);
    HistoryGrows(w, pc, choice);
    KeepsOthers(w, w', pid);
  }

  /** Processes that took no step keep what they know while reservations are added and time passes. */
  lemma KeepsOthers(w: World, w': World, stepped: nat)
    requires Inv(w) && Grows(w.history, w'.history) && w.now <= w'.now && w'.config == w.config
    ensures forall p :: p in w.procs && p != stepped ==> PcOk(w'.history, w'.config, w'.now, w.procs[p])
  {
    forall p | p in w.procs && p != stepped ensures PcOk(w'.history, w'.config, w'.now, w.procs[p]) {
      PcOkIsStable(w.history, w'.history, w.config, w.now, w'.now, w.procs[p]);
    }
  }

  lemma LosePositionKeepsInv(w: World)
    requires Inv(w)
    ensures Inv(Next(w, LosePosition))
  {
    TrailStepIsStable(w.history, Next(w, LosePosition).history);
  }

  lemma NextKeepsInv(w: World, e: Event)
    requires Inv(w) && Enabled(w, e)
    ensures Inv(Next(w, e))
  {
    match e
    case Step(pid, choice) => StepKeepsInv(w, pid, choice);
    case LosePosition => LosePositionKeepsInv(w);
    case Tick(to) =>
      forall pid | pid in w.procs ensures PcOk(w.history, w.config, to, w.procs[pid]) {
        PcOkIsStable(w.history, w.history, w.config, w.now, to, w.procs[pid]);
      }
    case _ =>
  }

  lemma RunKeepsInv(ws: seq<World>, es: seq<Event>, i: nat)
    requires Run(ws, es) && i < |ws|
    ensures Inv(ws[i])
  {
    if i == 0 {
      InitialInv(ws[0]);
    } else {
      RunKeepsInv(ws, es, i - 1);
      NextKeepsInv(ws[i - 1], es[i - 1]);
    }
  }
}
