/** Properties of single steps and of whole runs of the robot command protocol. */
module RobotProtocolTheorems {
  import opened Options
  import opened CommandStore
  import opened RobotProtocol
  import opened RobotProtocolInvariant

  /** The event is the transition of this command's record that a process asked for and was granted. */
  predicate Transitions(w: World, e: Event, id: CommandId) {
    && e.Step? && e.pid in w.procs && w.procs[e.pid].Cas?
    && w.procs[e.pid].current.id == id
    && CanTransition(w.keys, w.procs[e.pid].current, w.procs[e.pid].updated, w.now)
  }

  // ---------------------------------------------------------------- single steps

  /** How one event may change the keys and outcomes that concern one command. */
  ghost predicate Explained(w: World, e: Event, w': World, id: CommandId) {
    && (id in w.keys.records ==>
          || (e == LoseRecord(id) && id !in w'.keys.records)
          || (id in w'.keys.records && w'.keys.records[id] == w.keys.records[id])
          || (Transitions(w, e, id) && id in w'.keys.records && w'.keys.records[id] == w.procs[e.pid].updated))
    && (w.keys.active == Some(id) ==>
          || w'.keys.active == Some(id)
          || (w'.keys.active == None &&
              (|| e == LoseActive
               || id !in w.keys.records
               || (Transitions(w, e, id) && id in w'.keys.records &&
                   w'.history.finished == w.history.finished + [Outcome(id, w'.keys.records[id].status)]))))
  }

  /**
   Only the granted transition of a command touches its stored record, and its
   reservation ends only by loss, by the cleanup of a missing record, or by its
   own terminal transition.
   */
  lemma CommandsChangeByTransition(w: World, e: Event, id: CommandId)
    requires Inv(w) && Enabled(w, e)
    ensures Explained(w, e, Next(w, e), id)
  {
    match e
    case Step(pid, choice) =>
      var pc := w.procs[pid];
      if pc.Cas? {
        CasKeepsIdentity(w, pid);
        CasExplained(w, pid, choice, id);
      } else if !pc.SubmitReserve? {
        OthersOnlyLoseKeys(w, pc, choice);
      } else {
        ReserveExplained(w, pid, choice, id);
      }
    case _ =>
  }

  lemma CasExplained(w: World, pid: nat, choice: Choice, id: CommandId)
    requires pid in w.procs && w.procs[pid].Cas? && w.procs[pid].updated.id == w.procs[pid].current.id
    ensures Explained(w, Step(pid, choice), Next(w, Step(pid, choice)), id)
  {
    var pc := w.procs[pid];
    assert Perform(w, pc, choice) == PerformCas(w, pc.current, pc.updated, pc.terminal, pc.confirmed, pc.cause);
  }

  lemma CasKeepsIdentity(w: World, pid: nat)
    requires Inv(w) && pid in w.procs && w.procs[pid].Cas?
    ensures
      var pc := w.procs[pid];
      GoodCas(
        w.history.reserved, w.config, w.now, pc.current, pc.updated, pc.terminal, pc.confirmed, pc.cause)
    ensures SameIntent(w.procs[pid].current, w.procs[pid].updated)
  {
    assert PcOk(w.history, w.config, w.now, w.procs[pid]);
  }

  lemma ReserveExplained(w: World, pid: nat, choice: Choice, id: CommandId)
    requires Inv(w) && Enabled(w, Step(pid, choice)) && w.procs[pid].SubmitReserve?
    ensures Explained(w, Step(pid, choice), Next(w, Step(pid, choice)), id)
  {
    assert w.procs[pid].draft.id !in w.keys.records;
    NewReservationExplained(w, pid, choice, id);
  }

  lemma NewReservationExplained(w: World, pid: nat, choice: Choice, id: CommandId)
    requires Enabled(w, Step(pid, choice)) && w.procs[pid].SubmitReserve?
    requires w.procs[pid].draft.id !in w.keys.records
    ensures Explained(w, Step(pid, choice), Next(w, Step(pid, choice)), id)
  {
    var pc := w.procs[pid];
    assert Perform(w, pc, choice) == PerformReserve(w, pc.context, pc.seen, pc.draft);
  }

  /** What a step that changes the confirmed position must be. */
  predicate ConfirmsPosition(w: World, w': World, id: CommandId) {
    && w.keys.active == Some(id) && id in w.history.reserved
    && w'.history.finished == w.history.finished + [Outcome(id, Succeeded)]
    && w'.keys.active == None
    && w'.keys.position.Some?
    && w'.history.trail == w.history.trail + [w'.keys.position.value]
    && var r := w.history.reserved[id].record;
       var p := w'.keys.position.value;
       && p.command == id && p.group == r.group && p.map_ == r.map_
       && p.at == Plus(r.origin, Displacement(r.action))
       && w.history.reserved[id].context.size.Some?
       && InMap(w.history.reserved[id].context.size.value, p.at)
  }

  /**
   The confirmed position changes only when it is lost, or together with exactly
   one command becoming SUCCEEDED, to that command's origin plus its displacement.
   */
  lemma PositionMovesWithOneSuccess(w: World, e: Event)
    requires Inv(w) && Enabled(w, e)
    ensures
      var w' := Next(w, e);
      || w'.keys.position == w.keys.position
      || (e == LosePosition && w'.keys.position == None)
      || (w.keys.active.Some? && ConfirmsPosition(w, w', w.keys.active.value))
  {
    if e.Step? {
      var pc := w.procs[e.pid];
      if pc.Cas? {
        SuccessConfirms(w, e);
      } else if !pc.SubmitReserve? {
        OthersOnlyLoseKeys(w, pc, e.choice);
      }
    }
  }

  /** And every command that becomes SUCCEEDED moves the position to its target. */
  lemma SuccessConfirms(w: World, e: Event)
    requires Inv(w) && Enabled(w, e) && e.Step? && w.procs[e.pid].Cas?
    ensures
      var pc, w' := w.procs[e.pid], Next(w, e);
      CanTransition(w.keys, pc.current, pc.updated, w.now) && (pc.updated.status == Succeeded || pc.confirmed.Some?) ==>
        ConfirmsPosition(w, w', pc.current.id)
  {
    var pc := w.procs[e.pid];
    CasKeepsIdentity(w, e.pid);
    assert GoodReservation(pc.current.id, w.history.reserved[pc.current.id], w.config.timeout);
    GrantedSuccessConfirms(w, e);
  }

  lemma GrantedSuccessConfirms(w: World, e: Event)
    requires e.Step? && e.pid in w.procs && w.procs[e.pid].Cas?
    requires
      var pc := w.procs[e.pid];
      && pc.current.id in w.history.reserved
      && GoodReservation(pc.current.id, w.history.reserved[pc.current.id], w.config.timeout)
      && GoodCas(
           w.history.reserved, w.config, w.now,
           pc.current, pc.updated, pc.terminal, pc.confirmed, pc.cause)
    ensures
      var pc, w' := w.procs[e.pid], Next(w, e);
      CanTransition(w.keys, pc.current, pc.updated, w.now) && (pc.updated.status == Succeeded || pc.confirmed.Some?) ==>
        ConfirmsPosition(w, w', pc.current.id)
  {
    var pc := w.procs[e.pid];
    assert Perform(w, pc, e.choice) == PerformCas(w, pc.current, pc.updated, pc.terminal, pc.confirmed, pc.cause);
  }

  /**
   Every terminal state has its reason: SUCCEEDED a matching positive
   acknowledgement before the deadline, FAILED a matching negative one at the
   fourth attempt, TIMED_OUT an elapsed deadline, CANCELLED a robot that was read
   as foreign, offline or stale.
   */
  lemma OutcomeHasItsReason(w: World, e: Event, id: CommandId)
    requires Inv(w) && Enabled(w, e) && Transitions(w, e, id)
    ensures
      var r, r', cause := w.keys.records[id], w.procs[e.pid].updated, w.procs[e.pid].cause;
      && (Pending(r'.status) <==> cause.Retry? || cause.Dispatch? || cause.Rollback?)
      && (r'.status == Succeeded ==>
            && r.status == AwaitingAck && w.now < r.deadline
            && cause.Confirm? && cause.ack.ack && Matches(cause.ack, r))
      && (r'.status == Failed ==>
            && r.status == AwaitingAck && r.attempt == 4
            && cause.Exhaust? && !cause.nack.ack && Matches(cause.nack, r))
      && (r'.status == TimedOut ==> r.deadline <= w.now)
      && (r'.status == Cancelled ==>
            || (cause.Disown? && Foreign(cause.context, r))
            || (cause.Offline? && cause.context.Some? && cause.at <= w.now
                && !Live(cause.context.value, cause.lastSeen, cause.at, w.config.heartbeatTtl)))
  {
    CasKeepsIdentity(w, e.pid);
  }

  /**
   An envelope leaves only for a command that was saved as AWAITING_ACK at this
   attempt, before that record's deadline; and a dispatch marker is set only for an
   attempt whose envelope has left, so recovery never skips an unsent attempt.
   */
  lemma PublicationFollowsIntent(w: World, e: Event, id: CommandId, attempt: int)
    requires Inv(w) && Enabled(w, e)
    ensures
      var w' := Next(w, e);
      && (w'.history.published != w.history.published ==>
            && e.Step? && w.procs[e.pid].Publish?
            && var pending := w.procs[e.pid].pending;
            && pending.status == AwaitingAck && w.now < pending.deadline
            && w'.history.published ==
               w.history.published + {Publication(Command(pending.id, pending.attempt, pending.action), w.now)})
      && ((id, attempt) in w'.keys.dispatched ==> Sent(w'.history.published, id, attempt))
  {
    if (id, attempt) in Next(w, e).keys.dispatched {
      NextKeepsInv(w, e);
    }
    if e.Step? {
      StepPublishes(w, e.pid, e.choice);
    }
  }

  lemma StepPublishes(w: World, pid: nat, choice: Choice)
    requires Inv(w) && Enabled(w, Step(pid, choice))
    ensures
      var pc, h' := w.procs[pid], Perform(w, w.procs[pid], choice).history;
      h'.published != w.history.published ==>
        && pc.Publish? && pc.pending.status == AwaitingAck && w.now < pc.pending.deadline
        && h'.published ==
           w.history.published + {Publication(Command(pc.pending.id, pc.pending.attempt, pc.pending.action), w.now)}
  {
    var pc := w.procs[pid];
    assert PcOk(w.history, w.config, w.now, pc);
    hide Inv;
    if pc.Publish? {
      assert GoodDispatch(w.history.reserved, w.config.timeout, pc.message, pc.pending, pc.saved);
      hide PcOk;
      PublishSends(w, pc, choice);
    } else {
      hide PcOk;
      OnlyPublishSends(w, pc, choice);
    }
  }

  lemma PublishSends(w: World, pc: Pc, choice: Choice)
    requires pc.Publish? && GoodDispatch(w.history.reserved, w.config.timeout, pc.message, pc.pending, pc.saved)
    ensures
      var h' := Perform(w, pc, choice).history;
      h'.published != w.history.published ==>
        && pc.pending.status == AwaitingAck && w.now < pc.pending.deadline
        && h'.published ==
           w.history.published + {Publication(Command(pc.pending.id, pc.pending.attempt, pc.pending.action), w.now)}
  {
    assert Perform(w, pc, choice) == PerformPublish(w, pc, choice);
  }

  lemma OnlyPublishSends(w: World, pc: Pc, choice: Choice)
    requires Runnable(pc) && !pc.Publish?
    ensures Perform(w, pc, choice).history.published == w.history.published
  {
  }

  /** The attempt of a stored record rises only by one, on a negative acknowledgement of exactly that attempt. */
  lemma AttemptRisesOnNackOnly(w: World, e: Event, id: CommandId)
    requires Inv(w) && Enabled(w, e)
    requires id in w.keys.records && id in Next(w, e).keys.records
    ensures
      var r, r' := w.keys.records[id], Next(w, e).keys.records[id];
      || r'.attempt == r.attempt
      || (&& Transitions(w, e, id) && w.procs[e.pid].cause.Retry?
          && r.status == AwaitingAck && r'.status == Queued && r'.attempt == r.attempt + 1 <= 4
          && Matches(w.procs[e.pid].cause.nack, r) && !w.procs[e.pid].cause.nack.ack)
  {
    CommandsChangeByTransition(w, e, id);
    if Transitions(w, e, id) {
      CasKeepsIdentity(w, e.pid);
    }
  }

  /** No dispatch, rollback, retry or success takes effect eight timeouts after the reservation. */
  lemma NoEffectAfterLastDeadline(w: World, e: Event, id: CommandId)
    requires Inv(w) && Enabled(w, e)
    ensures
      var records, records' := w.keys.records, Next(w, e).keys.records;
      id in records && id in records' && records'[id] != records[id] && DeadlineGuarded(records'[id].status) ==>
        && w.now < w.history.reserved[id].at + 2 * records[id].attempt * w.config.timeout
        && w.now < w.history.reserved[id].at + 8 * w.config.timeout
  {
    CommandsChangeByTransition(w, e, id);
    if id in w.keys.records {
      var r := w.keys.records[id];
      assert GoodRecord(w.history.reserved, w.config.timeout, r);
      LatestDeadlineIsBounded(w.history.reserved[id].at, r.attempt, r.status, w.config.timeout);
    }
  }

  lemma LatestDeadlineIsBounded(at: Time, attempt: int, status: Status, timeout: nat)
    requires 1 <= attempt <= MAX_ATTEMPTS
    ensures LatestDeadline(at, attempt, status, timeout) <= at + 2 * attempt * timeout <= at + 8 * timeout
  {
    TimeoutsAreMonotone(attempt, timeout);
  }

  lemma TimeoutsAreMonotone(attempt: int, timeout: nat)
    requires 1 <= attempt <= MAX_ATTEMPTS
    ensures (2 * attempt - 1) * timeout <= 2 * attempt * timeout <= 8 * timeout
  {
    if attempt == 1 {
    } else if attempt == 2 {
    } else if attempt == 3 {
    } else {
    }
  }

  // ---------------------------------------------------------------- whole runs

  /** Bookkeeping only grows from one state of a run to a later one. */
  ghost predicate Continues(h: History, h': History) {
    && Grows(h, h')
    && |h.finished| <= |h'.finished| && h'.finished[..|h.finished|] == h.finished
  }

  lemma StepContinues(w: World, e: Event)
    requires Enabled(w, e)
    ensures Continues(w.history, Next(w, e).history)
  {
    if e.Step? {
      var pc := w.procs[e.pid];
      HistoryGrows(w, pc, e.choice);
      if !pc.Cas? && !pc.SubmitReserve? {
        OthersOnlyLoseKeys(w, pc, e.choice);
      }
    }
  }

  lemma ContinuesIsTransitive(h: History, h': History, h'': History)
    requires Continues(h, h') && Continues(h', h'')
    ensures Continues(h, h'')
  {
    assert h''.finished[..|h'.finished|][..|h.finished|] == h''.finished[..|h.finished|];
  }

  lemma {:induction false} RunContinues(ws: seq<World>, es: seq<Event>, i: nat, j: nat)
    requires Run(ws, es) && i <= j < |ws|
    ensures Continues(ws[i].history, ws[j].history)
  {
    hide Next;
    hide Enabled;
    if i < j {
      RunContinues(ws, es, i, j - 1);
      StepContinues(ws[j - 1], es[j - 1]);
      ContinuesIsTransitive(ws[i].history, ws[j - 1].history, ws[j].history);
    }
  }

  /** A finished command: it can neither hold the robot nor be stored with another record. */
  lemma FinishedCommandStays(w: World, e: Event, id: CommandId)
    requires Inv(w) && Enabled(w, e)
    requires exists o :: o in w.history.finished && o.id == id
    ensures w.keys.active != Some(id)
    ensures id in Next(w, e).keys.records ==> id in w.keys.records && Next(w, e).keys.records[id] == w.keys.records[id]
  {
    CommandsChangeByTransition(w, e, id);
    if id !in w.keys.records {
      LostRecordStaysLost(w, e, id);
    }
  }

  /** The record of a reserved command, once evicted, is never written again. */
  lemma LostRecordStaysLost(w: World, e: Event, id: CommandId)
    requires Enabled(w, e)
    requires id in w.history.reserved && id !in w.keys.records
    ensures id !in Next(w, e).keys.records
  {
    if e.Step? {
      var pc := w.procs[e.pid];
      if !pc.Cas? && !pc.SubmitReserve? {
        OthersOnlyLoseKeys(w, pc, e.choice);
      }
    }
  }

  /**
   Terminal states are absorbing.  A command that has finished never holds the
   robot again and its record never changes, however processes with older
   snapshots go on; at any time a command has at most one terminal transition.
   */
  lemma TerminalIsAbsorbing(ws: seq<World>, es: seq<Event>, i: nat, j: nat, id: CommandId)
    requires Run(ws, es) && i <= j < |ws|
    requires id in ws[i].keys.records && !Pending(ws[i].keys.records[id].status)
    ensures ws[i].keys.active != Some(id) && ws[j].keys.active != Some(id)
    ensures id in ws[j].keys.records ==> ws[j].keys.records[id] == ws[i].keys.records[id]
    ensures
      forall m, n :: 0 <= m < n < |ws[j].history.finished| ==>
        ws[j].history.finished[m].id != ws[j].history.finished[n].id
  {
    RunKeepsInv(ws, es, i);
    RunKeepsInv(ws, es, j);
    var o := Outcome(id, ws[i].keys.records[id].status);
    StaysFinished(ws, es, i, j, o);
    FinishedRecordStays(ws, es, i, j, o);
  }

  lemma StaysFinished(ws: seq<World>, es: seq<Event>, i: nat, j: nat, o: Outcome)
    requires Run(ws, es) && i <= j < |ws| && o in ws[i].history.finished
    ensures o in ws[j].history.finished
  {
    RunContinues(ws, es, i, j);
    assert o in ws[j].history.finished[..|ws[i].history.finished|];
  }

  lemma {:induction false} FinishedRecordStays(ws: seq<World>, es: seq<Event>, i: nat, j: nat, o: Outcome)
    requires Run(ws, es) && i <= j < |ws| && o in ws[i].history.finished
    requires o.id in ws[i].keys.records
    ensures o.id in ws[j].keys.records ==> ws[j].keys.records[o.id] == ws[i].keys.records[o.id]
  {
    if i < j {
      FinishedRecordStays(ws, es, i, j - 1, o);
      RunKeepsInv(ws, es, j - 1);
      StaysFinished(ws, es, i, j - 1, o);
      FinishedCommandStays(ws[j - 1], es[j - 1], o.id);
    }
  }

  /** One step keeps a lost record lost and does not lower the attempt of a stored one. */
  lemma AttemptNeverFalls(w: World, e: Event, id: CommandId)
    requires Inv(w) && Enabled(w, e) && id in w.history.reserved && id in Next(w, e).keys.records
    ensures id in w.keys.records && w.keys.records[id].attempt <= Next(w, e).keys.records[id].attempt
  {
    if id !in w.keys.records {
      LostRecordStaysLost(w, e, id);
    } else {
      AttemptRisesOnNackOnly(w, e, id);
    }
  }

  lemma StoredAttemptInRange(w: World, id: CommandId)
    requires Inv(w) && id in w.keys.records
    ensures id in w.history.reserved && 1 <= w.keys.records[id].attempt <= 4
  {
    assert GoodRecord(w.history.reserved, w.config.timeout, w.keys.records[id]);
  }

  /** The attempt of a command never goes down, and stays within 1..4. */
  lemma {:induction false} AttemptsAreMonotone(ws: seq<World>, es: seq<Event>, i: nat, j: nat, id: CommandId)
    requires Run(ws, es) && i <= j < |ws|
    requires id in ws[i].keys.records
    ensures
      id in ws[j].keys.records ==>
        1 <= ws[i].keys.records[id].attempt <= ws[j].keys.records[id].attempt <= 4
  {
    hide Next;
    hide Enabled;
    hide Inv;
    RunKeepsInv(ws, es, i);
    StoredAttemptInRange(ws[i], id);
    if id in ws[j].keys.records {
      RunKeepsInv(ws, es, j);
      StoredAttemptInRange(ws[j], id);
      if i < j {
        RunKeepsInv(ws, es, j - 1);
        RunContinues(ws, es, i, j - 1);
        AttemptNeverFalls(ws[j - 1], es[j - 1], id);
        AttemptsAreMonotone(ws, es, i, j - 1, id);
      }
    }
  }

  /** Every stored deadline is bounded by the reservation time and the attempt alone; FAILED means four attempts. */
  lemma DeadlinesAreBounded(ws: seq<World>, es: seq<Event>, i: nat, id: CommandId)
    requires Run(ws, es) && i < |ws| && id in ws[i].keys.records
    ensures
      var r, t := ws[i].keys.records[id], ws[i].config.timeout;
      && id in ws[i].history.reserved
      && var at := ws[i].history.reserved[id].at;
      && (r.status == Queued ==> r.deadline <= at + (2 * r.attempt - 1) * t)
      && (r.status == AwaitingAck ==> r.deadline <= at + 2 * r.attempt * t)
      && (r.status == Failed ==> r.attempt == 4)
  {
    RunKeepsInv(ws, es, i);
  }

  /** Every published envelope of a command carries its reserved action, and there are at most four of them. */
  lemma AtMostFourEnvelopes(ws: seq<World>, es: seq<Event>, i: nat, id: CommandId)
    requires Run(ws, es) && i < |ws|
    ensures
      var sent := set p | p in ws[i].history.published && p.envelope.id == id :: p.envelope;
      && |sent| <= 4
      && forall m :: m in sent ==>
           id in ws[i].history.reserved && m == Command(id, m.attempt, ws[i].history.reserved[id].record.action)
    ensures
      forall p :: p in ws[i].history.published && p.envelope.id == id ==>
        id in ws[i].history.reserved && p.at < ws[i].history.reserved[id].at + 8 * ws[i].config.timeout
  {
    RunKeepsInv(ws, es, i);
    var h := ws[i].history;
    var sent := set p | p in h.published && p.envelope.id == id :: p.envelope;
    forall p | p in h.published
      ensures GoodPublication(h.reserved, ws[i].config.timeout, p)
      ensures p.at < h.reserved[p.envelope.id].at + 8 * ws[i].config.timeout
    {
      var v := h.reserved[p.envelope.id];
      LatestDeadlineIsBounded(v.at, p.envelope.attempt, AwaitingAck, ws[i].config.timeout);
    }
    if id in h.reserved {
      var action := h.reserved[id].record.action;
      var all := {Command(id, 1, action), Command(id, 2, action), Command(id, 3, action), Command(id, 4, action)};
      SubsetIsSmaller(sent, all);
    } else {
      assert sent == {};
    }
  }

  lemma SubsetIsSmaller(a: set<Message>, b: set<Message>)
    requires a <= b
    ensures |a| <= |b|
  {
    if a != {} {
      var m :| m in a;
      SubsetIsSmaller(a - {m}, b - {m});
    }
  }

  /** The sum of the displacements of the commands along the trail. */
  ghost function Travelled(h: Reserved, trail: seq<Position>): Point
    requires forall p :: p in trail ==> p.command in h
  {
    if trail == [] then Point(0.0, 0.0)
    else
      var last := trail[|trail| - 1];
      Plus(Travelled(h, trail[..|trail| - 1]), Displacement(h[last.command].record.action))
  }

  /** The origin of a success is the position confirmed before it, unless that position was on another map or lost. */
  lemma SuccessStartsWhereTheLastEnded(ws: seq<World>, es: seq<Event>, i: nat, k: nat)
    requires Run(ws, es) && i < |ws| && 0 < k < |ws[i].history.trail|
    ensures
      var h := ws[i].history;
      var p, q := h.trail[k - 1], h.trail[k];
      && q.command in h.reserved
      && (h.reserved[q.command].seen == Some(p) || (h.positionLost && h.reserved[q.command].seen == None))
      && (h.reserved[q.command].seen == Some(p) && p.group == q.group && p.map_ == q.map_ ==>
            q.at == Plus(p.at, Displacement(h.reserved[q.command].record.action)))
  {
    RunKeepsInv(ws, es, i);
    var h := ws[i].history;
    assert TrailStep(h, k);
    assert Last(h.trail[..k]) == Some(h.trail[k - 1]);
    assert GoodReservation(h.trail[k].command, h.reserved[h.trail[k].command], ws[i].config.timeout);
  }

  lemma TrailIsDeadReckoned(h: History, timeout: nat, n: nat)
    requires TrailOk(h) && ReservationsOk(h.reserved, timeout) && !h.positionLost
    requires 1 <= n <= |h.trail|
    requires forall k :: 0 <= k < n ==> h.trail[k].group == h.trail[0].group && h.trail[k].map_ == h.trail[0].map_
    ensures forall p :: p in h.trail ==> p.command in h.reserved
    ensures h.reserved[h.trail[0].command].context.dock.Some?
    ensures
      h.trail[n - 1].at ==
      Plus(h.reserved[h.trail[0].command].context.dock.value, Travelled(h.reserved, h.trail[..n]))
  {
    forall p | p in h.trail ensures p.command in h.reserved {
      var k :| 0 <= k < |h.trail| && h.trail[k] == p;
      assert TrailStep(h, k);
    }
    assert TrailStep(h, n - 1) && TrailStep(h, 0);
    assert GoodReservation(h.trail[n - 1].command, h.reserved[h.trail[n - 1].command], timeout);
    assert GoodReservation(h.trail[0].command, h.reserved[h.trail[0].command], timeout);
    assert h.trail[..n][..n - 1] == h.trail[..n - 1];
    if n > 1 {
      TrailIsDeadReckoned(h, timeout, n - 1);
      assert Last(h.trail[..n - 1]) == Some(h.trail[n - 2]);
    } else {
      assert Travelled(h.reserved, h.trail[..1]) ==
             Plus(Point(0.0, 0.0), Displacement(h.reserved[h.trail[0].command].record.action));
    }
  }

  /**
   Dead reckoning.  While no position is lost and the robot stays on one group and
   map, its stored position is the dock centroid of the first success plus the
   displacements of the successes, each counted once.
   */
  lemma DeadReckoning(ws: seq<World>, es: seq<Event>, i: nat)
    requires Run(ws, es) && i < |ws|
    requires var h := ws[i].history;
      && !h.positionLost && h.trail != []
      && forall p :: p in h.trail ==> p.group == h.trail[0].group && p.map_ == h.trail[0].map_
    ensures
      var h := ws[i].history;
      && (forall p :: p in h.trail ==> p.command in h.reserved)
      && h.reserved[h.trail[0].command].context.dock.Some?
      && ws[i].keys.position.Some?
      && ws[i].keys.position.value.at ==
         Plus(h.reserved[h.trail[0].command].context.dock.value, Travelled(h.reserved, h.trail))
      && Successes(h.finished) == seq(|h.trail|, k requires 0 <= k < |h.trail| => h.trail[k].command)
      && forall m, n :: 0 <= m < n < |h.finished| ==> h.finished[m].id != h.finished[n].id
  {
    RunKeepsInv(ws, es, i);
    var h := ws[i].history;
    assert h.trail[..|h.trail|] == h.trail;
    TrailIsDeadReckoned(h, ws[i].config.timeout, |h.trail|);
  }

  /** This success started from the dock: the position it saw was missing or of another group or map. */
  predicate FromDock(h: History, k: nat) {
    && k < |h.trail| && h.trail[k].command in h.reserved
    && var v := h.reserved[h.trail[k].command];
       !(v.seen.Some? && v.seen.value.group == v.context.group && v.context.map_ == Some(v.seen.value.map_))
  }

  ghost predicate TrailReserved(h: History) {
    forall p :: p in h.trail ==> p.command in h.reserved
  }

  /** The last of the first `n` successes that started from the dock. */
  ghost function LastDock(h: History, n: nat): (j: nat)
    requires 1 <= n <= |h.trail|
    ensures j < n
  {
    if n == 1 || FromDock(h, n - 1) then n - 1 else LastDock(h, n - 1)
  }

  /** A success that started from the dock ended its displacement away from it. */
  ghost predicate LeftDock(h: History, k: nat) {
    && FromDock(h, k)
    && var v := h.reserved[h.trail[k].command];
       v.context.dock.Some? && h.trail[k].at == Plus(v.context.dock.value, Displacement(v.record.action))
  }

  /** A success that started where the one before it ended, on the same group and map. */
  ghost predicate Continued(h: History, k: nat) {
    && 0 < k < |h.trail| && h.trail[k].command in h.reserved && !FromDock(h, k)
    && h.trail[k - 1].group == h.trail[k].group && h.trail[k - 1].map_ == h.trail[k].map_
    && h.trail[k].at == Plus(h.trail[k - 1].at, Displacement(h.reserved[h.trail[k].command].record.action))
  }

  /** There is no third way. */
  lemma DockOrContinued(h: History, timeout: nat, k: nat)
    requires TrailOk(h) && ReservationsOk(h.reserved, timeout) && k < |h.trail|
    ensures if FromDock(h, k) then LeftDock(h, k) else Continued(h, k)
    ensures k == 0 ==> FromDock(h, k)
  {
    assert TrailStep(h, k);
    assert GoodReservation(h.trail[k].command, h.reserved[h.trail[k].command], timeout);
    if k > 0 {
      assert Last(h.trail[..k]) == Some(h.trail[k - 1]);
    }
  }

  /** The stretch of the trail since the last start from the dock. */
  ghost predicate Reckoned(h: History, j: nat, n: nat) {
    && j < n <= |h.trail| && TrailReserved(h)
    && FromDock(h, j) && (forall k :: j < k < n ==> !FromDock(h, k))
    && (forall k :: j <= k < n ==> h.trail[k].group == h.trail[j].group && h.trail[k].map_ == h.trail[j].map_)
    && h.reserved[h.trail[j].command].context.dock.Some?
    && h.trail[n - 1].at ==
       Plus(h.reserved[h.trail[j].command].context.dock.value, Travelled(h.reserved, h.trail[j..n]))
  }

  lemma TrailIsReserved(h: History)
    requires TrailOk(h)
    ensures TrailReserved(h)
  {
    forall p | p in h.trail ensures p.command in h.reserved {
      var k :| 0 <= k < |h.trail| && h.trail[k] == p;
      assert TrailStep(h, k);
    }
  }

  lemma {:induction false} SegmentIsReckoned(h: History, timeout: nat, n: nat)
    requires TrailOk(h) && ReservationsOk(h.reserved, timeout) && 1 <= n <= |h.trail|
    requires TrailReserved(h)
    ensures Reckoned(h, LastDock(h, n), n)
  {
    DockOrContinued(h, timeout, n - 1);
    hide TrailReserved;
    hide LeftDock;
    hide Continued;
    hide Reckoned;
    hide FromDock;
    hide TrailOk;
    hide ReservationsOk;
    if FromDock(h, n - 1) {
      StretchOfOne(h, n - 1);
    } else {
      SegmentIsReckoned(h, timeout, n - 1);
      OneMoreSuccess(h, LastDock(h, n - 1), n);
    }
  }

  lemma StretchOfOne(h: History, j: nat)
    requires TrailReserved(h) && LeftDock(h, j)
    ensures Reckoned(h, j, j + 1)
  {
    assert h.trail[j..j + 1] == [h.trail[j]] && [h.trail[j]][..0] == [];
    assert Travelled(h.reserved, [h.trail[j]]) ==
           Plus(Point(0.0, 0.0), Displacement(h.reserved[h.trail[j].command].record.action));
  }

  lemma OneMoreSuccess(h: History, j: nat, n: nat)
    requires j < n - 1 && Reckoned(h, j, n - 1) && Continued(h, n - 1)
    ensures Reckoned(h, j, n)
  {
    assert h.trail[j..n][..n - j - 1] == h.trail[j..n - 1];
  }

  /**
   Dead reckoning across losses and changes of map.  In every run, a stored position
   is the dock centroid of the last success that started from the dock, plus the
   displacements of the successes from that one on.
   */
  lemma DeadReckoningSinceTheDock(ws: seq<World>, es: seq<Event>, i: nat)
    requires Run(ws, es) && i < |ws| && ws[i].keys.position.Some?
    ensures
      var h := ws[i].history;
      && h.trail != [] && ws[i].keys.position == Last(h.trail)
      && Reckoned(h, LastDock(h, |h.trail|), |h.trail|)
      && ws[i].keys.position.value.at ==
         Plus(
           h.reserved[h.trail[LastDock(h, |h.trail|)].command].context.dock.value,
           Travelled(h.reserved, h.trail[LastDock(h, |h.trail|)..]))
  {
    RunKeepsInv(ws, es, i);
    var h := ws[i].history;
    TrailIsReserved(h);
    SegmentIsReckoned(h, ws[i].config.timeout, |h.trail|);
    assert h.trail[LastDock(h, |h.trail|)..] == h.trail[LastDock(h, |h.trail|)..|h.trail|];
  }

  /** No process is stuck: in every run each one can take its next step, a reservation with an id that is new. */
  lemma NoProcessIsStuck(ws: seq<World>, es: seq<Event>, i: nat, pid: nat, choice: Choice)
    requires Run(ws, es) && i < |ws| && pid in ws[i].procs
    requires ws[i].procs[pid].SubmitReserve? ==> ws[i].procs[pid].draft.id !in ws[i].history.reserved
    ensures Enabled(ws[i], Step(pid, choice))
  {
    RunKeepsInv(ws, es, i);
    assert PcOk(ws[i].history, ws[i].config, ws[i].now, ws[i].procs[pid]);
  }
}
