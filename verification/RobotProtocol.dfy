/**
 The robot command service as a set of processes over one robot's Redis keys.
 Every process has a program counter and the snapshots it took; a step performs
 one read, one clock reading, one Lua script or one call to the device, so that
 any number of submissions, messages and reconcilers interleave between steps.
 Messages are arbitrary: any command or acknowledgement may arrive at any time,
 any number of times.
 */
module RobotProtocol {
  import opened Options
  import opened CommandStore

  const MAX_ATTEMPTS := 4

  datatype Config = Config(timeout: nat, heartbeatTtl: nat)

  /** One row of the robot, map and docking-station join. */
  datatype Context = Context(
    group: GroupId, map_: Option<MapId>, online: bool, size: Option<Point>, dock: Option<Point>)

  datatype Message =
    | Command(id: CommandId, attempt: int, action: CleaningAction)
    | Acknowledgement(id: CommandId, attempt: int, action: CleaningAction, ack: bool)

  /** Why a process asks for a transition, with the fact it relied on. */
  datatype Cause =
    | Expire
    | Disown(context: Option<Context>)
    | Offline(context: Option<Context>, lastSeen: Option<Time>, at: Time)
    | Confirm(ack: Message)
    | Exhaust(nack: Message)
    | Retry(nack: Message)
    | Dispatch(command: Message)
    | Rollback

  datatype Pc =
    | SubmitContext(group: GroupId, action: CleaningAction)
    | SubmitLive(context: Context, action: CleaningAction)
    | SubmitPosition(context: Context, action: CleaningAction)
    | SubmitStamp(context: Context, action: CleaningAction, seen: Option<Position>, origin: Point)
    | SubmitDeadline(context: Context, seen: Option<Position>, draft: Record)
    | SubmitReserve(context: Context, seen: Option<Position>, draft: Record)
    | ReadActive(job: Option<Message>)
    | ReadRecord(job: Option<Message>, id: CommandId)
    | CleanUp(id: CommandId)
    | CheckDeadline(job: Option<Message>, record: Record)
    | CheckOwner(job: Option<Message>, record: Record)
    | CheckLive(job: Option<Message>, record: Record, context: Context)
    | Handle(message: Message, record: Record)
    | CheckDispatched(message: Message, record: Record)
    | StampFinish(record: Record, status: Status, reason: Option<string>, confirmed: Option<Position>, cause: Cause)
    | StampDeadline(record: Record, updated: Record, cause: Cause)
    | Cas(current: Record, updated: Record, terminal: bool, confirmed: Option<Position>, cause: Cause)
    | Publish(message: Message, pending: Record, saved: Record)
    | Mark(message: Message, pending: Record, saved: Record)
    | Done

  /** What the reserve script saw when it gave the robot to a command. */
  datatype Reservation = Reservation(record: Record, seen: Option<Position>, context: Context, at: Time)

  datatype Outcome = Outcome(id: CommandId, status: Status)

  datatype Publication = Publication(envelope: Message, at: Time)

  /** Bookkeeping that no step reads: what has happened so far. */
  datatype History = History(
    reserved: map<CommandId, Reservation>, finished: seq<Outcome>, trail: seq<Position>,
    published: set<Publication>, positionLost: bool)

  const NoHistory := History(map[], [], [], {}, false)

  /** Postgres facts and the live heartbeat; they change without notice. */
  datatype Environment = Environment(context: Option<Context>, lastSeen: Option<Time>)

  datatype World = World(
    config: Config, now: Time, env: Environment, keys: Keys, procs: map<nat, Pc>, history: History)

  /** The outcomes a step does not decide: a fresh id, whether a call took effect and whether it returned. */
  datatype Choice = Choice(id: CommandId, took: bool, returned: bool)

  datatype Effect = Effect(keys: Keys, history: History, pc: Pc)

  function Plus(p: Point, q: Point): Point {
    Point(p.x + q.x, p.y + q.y)
  }

  function Displacement(a: CleaningAction): Point {
    match a.direction
    case North => Point(0.0, a.distance)
    case South => Point(0.0, -a.distance)
    case East => Point(a.distance, 0.0)
    case West => Point(-a.distance, 0.0)
  }

  predicate InMap(size: Point, p: Point) {
    0.0 <= p.x <= size.x && 0.0 <= p.y <= size.y
  }

  function ResolveOrigin(seen: Option<Position>, context: Context): Option<Point> {
    if seen.Some? && seen.value.group == context.group && context.map_ == Some(seen.value.map_) then
      Some(seen.value.at)
    else
      context.dock
  }

  predicate Live(context: Context, lastSeen: Option<Time>, now: Time, ttl: nat) {
    context.online && lastSeen.Some? && 0 <= now - lastSeen.value <= ttl
  }

  /** The saved command, attempt and action are those of the message. */
  predicate Matches(m: Message, r: Record) {
    r.id == m.id && r.attempt == m.attempt && r.action == m.action
  }

  function Quiet(w: World, pc: Pc): Effect {
    Effect(w.keys, w.history, pc)
  }

  function PerformSubmit(w: World, pc: Pc, choice: Choice): Effect
    requires pc.SubmitContext? || pc.SubmitLive? || pc.SubmitPosition? || pc.SubmitStamp? || pc.SubmitDeadline?
    requires pc.SubmitPosition? || pc.SubmitStamp? ==> pc.context.map_.Some? && pc.context.size.Some?
  {
    match pc
    case SubmitContext(group, action) =>
      if w.env.context.None? || w.env.context.value.group != group then Quiet(w, Done)
      else Quiet(w, SubmitLive(w.env.context.value, action))
    case SubmitLive(context, action) =>
      if !Live(context, w.env.lastSeen, w.now, w.config.heartbeatTtl) || context.map_.None? || context.size.None? then
        Quiet(w, Done)
      else
        Quiet(w, SubmitPosition(context, action))
    case SubmitPosition(context, action) =>
      var origin := ResolveOrigin(w.keys.position, context);
      if origin.None? || !InMap(context.size.value, Plus(origin.value, Displacement(action))) then Quiet(w, Done)
      else Quiet(w, SubmitStamp(context, action, w.keys.position, origin.value))
    case SubmitStamp(context, action, seen, origin) =>
      Quiet(w, SubmitDeadline(context, seen, Record(
        choice.id, 1, action, context.group, context.map_.value, origin, Plus(origin, Displacement(action)),
        Queued, w.now, w.now, w.now, None)))
    case SubmitDeadline(context, seen, draft) =>
      Quiet(w, SubmitReserve(context, seen, draft.(deadline := w.now + w.config.timeout)))
  }

  function PerformReserve(w: World, context: Context, seen: Option<Position>, draft: Record): Effect {
    if CanReserve(w.keys, seen) then
      Effect(
        ReserveScript(w.keys, draft),
        w.history.(reserved := w.history.reserved[draft.id := Reservation(draft, seen, context, w.now)]),
        Done)
    else
      Quiet(w, Done)
  }

  /** `active()` and `_eligible`: the reads before any decision about a command. */
  function PerformCheck(w: World, pc: Pc): Effect
    requires pc.ReadActive? || pc.ReadRecord? || pc.CleanUp? || pc.CheckDeadline? || pc.CheckOwner? || pc.CheckLive?
  {
    match pc
    case ReadActive(job) =>
      Quiet(w, if w.keys.active.None? then Done else ReadRecord(job, w.keys.active.value))
    case ReadRecord(job, id) =>
      if id !in w.keys.records then Quiet(w, CleanUp(id))
      else if job.Some? && !Matches(job.value, w.keys.records[id]) then Quiet(w, Done)
      else Quiet(w, CheckDeadline(job, w.keys.records[id]))
    case CleanUp(id) =>
      Effect(if CanClean(w.keys, id) then w.keys.(active := None) else w.keys, w.history, Done)
    case CheckDeadline(job, record) =>
      Quiet(w,
        if w.now >= record.deadline then
          StampFinish(record, TimedOut, Some("Acknowledgement or dispatch timeout"), None, Expire)
        else
          CheckOwner(job, record))
    case CheckOwner(job, record) =>
      var context := w.env.context;
      Quiet(w,
        if context.None? || context.value.group != record.group || context.value.map_ != Some(record.map_) then
          StampFinish(record, Cancelled, Some("Robot ownership or map changed"), None, Disown(context))
        else
          CheckLive(job, record, context.value))
    case CheckLive(job, record, context) =>
      Quiet(w,
        if !Live(context, w.env.lastSeen, w.now, w.config.heartbeatTtl) then
          StampFinish(
            record, Cancelled, Some("Robot is offline or stale"), None,
            Offline(Some(context), w.env.lastSeen, w.now))
        else if job.None? then
          Done
        else
          Handle(job.value, record))
  }

  /** What an eligible command or acknowledgement asks for. */
  function PerformHandle(w: World, m: Message, r: Record): Effect {
    Quiet(w,
      if m.Acknowledgement? then
        if r.status != AwaitingAck then
          Done
        else if m.ack then
          StampFinish(r, Succeeded, None, Some(Position(r.group, r.map_, r.target, r.id, w.now)), Confirm(m))
        else if m.attempt >= MAX_ATTEMPTS then
          StampFinish(r, Failed, Some("Robot action failed after three retries"), None, Exhaust(m))
        else
          StampDeadline(r, r.(attempt := m.attempt + 1, status := Queued, updatedAt := w.now), Retry(m))
      else if r.status == Queued then
        StampDeadline(r, r.(status := AwaitingAck, updatedAt := w.now), Dispatch(m))
      else if r.status == AwaitingAck then
        CheckDispatched(m, r)
      else
        Done)
  }

  function Recorded(h: History, updated: Record, terminal: bool, confirmed: Option<Position>): History {
    h.(finished := if terminal then h.finished + [Outcome(updated.id, updated.status)] else h.finished,
    trail := if confirmed.Some? then h.trail + [confirmed.value] else h.trail)
  }

  function PerformCas(
    w: World, current: Record, updated: Record, terminal: bool, confirmed: Option<Position>, cause: Cause): Effect
  {
    if CanTransition(w.keys, current, updated, w.now) then
      Effect(
        TransitionScript(w.keys, current, updated, terminal, confirmed),
        Recorded(w.history, updated, terminal, confirmed),
        if cause.Dispatch? then Publish(cause.command, updated, current) else Done)
    else
      Quiet(w, Done)
  }

  /**
   The device-facing publication and its dispatch marker.  An exception rolls the
   record back; the envelope or the marker may have taken effect all the same.
   The publisher checks the pending deadline before it sends.
   */
  function PerformPublish(w: World, pc: Pc, choice: Choice): Effect
    requires pc.Publish? || pc.Mark?
  {
    match pc
    case Publish(m, pending, saved) =>
      var sent := choice.took && w.now < pending.deadline;
      Effect(
        w.keys,
        if sent then w.history.(published := w.history.published + {Publication(m, w.now)}) else w.history,
        if sent && choice.returned then Mark(m, pending, saved) else Cas(pending, saved, false, None, Rollback))
    case Mark(m, pending, saved) =>
      Effect(
        if choice.took then w.keys.(dispatched := w.keys.dispatched + {(pending.id, pending.attempt)}) else w.keys,
        w.history,
        if choice.took && choice.returned then Done else Cas(pending, saved, false, None, Rollback))
  }

  predicate Runnable(pc: Pc) {
    pc.SubmitPosition? || pc.SubmitStamp? ==> pc.context.map_.Some? && pc.context.size.Some?
  }

  function Perform(w: World, pc: Pc, choice: Choice): Effect
    requires Runnable(pc)
  {
    match pc
    case SubmitReserve(context, seen, draft) => PerformReserve(w, context, seen, draft)
    case Handle(m, r) => PerformHandle(w, m, r)
    case CheckDispatched(m, r) =>
      Quiet(w, if (r.id, r.attempt) in w.keys.dispatched then Done else Publish(m, r, r))
    case StampFinish(r, status, reason, confirmed, cause) =>
      Quiet(w, Cas(r, r.(status := status, updatedAt := w.now, reason := reason), true, confirmed, cause))
    case StampDeadline(r, updated, cause) =>
      Quiet(w, Cas(r, updated.(deadline := w.now + w.config.timeout), false, None, cause))
    case Cas(current, updated, terminal, confirmed, cause) =>
      PerformCas(w, current, updated, terminal, confirmed, cause)
    case Publish(_, _, _) => PerformPublish(w, pc, choice)
    case Mark(_, _, _) => PerformPublish(w, pc, choice)
    case Done => Quiet(w, Done)
    case SubmitContext(_, _) => PerformSubmit(w, pc, choice)
    case SubmitLive(_, _) => PerformSubmit(w, pc, choice)
    case SubmitPosition(_, _) => PerformSubmit(w, pc, choice)
    case SubmitStamp(_, _, _, _) => PerformSubmit(w, pc, choice)
    case SubmitDeadline(_, _, _) => PerformSubmit(w, pc, choice)
    case _ => PerformCheck(w, pc)
  }

  datatype Event =
    | Tick(to: Time)
    | Observe(env: Environment)
    | Start(pid: nat, pc: Pc)
    | Step(pid: nat, choice: Choice)
    | Crash(pid: nat)
    | LoseActive
    | LoseRecord(id: CommandId)
    | LosePosition
    | LoseMark(mark: (CommandId, int))

  /** A submission, a queued message or a pass of the reconciler. */
  predicate Entry(pc: Pc) {
    (pc.SubmitContext? && pc.action.distance > 0.0) || pc.ReadActive?
  }

  /** A reservation runs only with an id no earlier reservation had. */
  predicate Enabled(w: World, e: Event) {
    match e
    case Tick(to) => w.now <= to
    case Start(pid, pc) => pid !in w.procs && Entry(pc)
    case Step(pid, _) =>
      && pid in w.procs
      && Runnable(w.procs[pid])
      && (w.procs[pid].SubmitReserve? ==> w.procs[pid].draft.id !in w.history.reserved)
    case _ => true
  }

  /** One step of the system; expiry and eviction of keys are `Lose` events. */
  function Next(w: World, e: Event): World
    requires Enabled(w, e)
  {
    match e
    case Tick(to) => w.(now := to)
    case Observe(env) => w.(env := env)
    case Start(pid, pc) => w.(procs := w.procs[pid := pc])
    case Step(pid, choice) =>
      var effect := Perform(w, w.procs[pid], choice);
      w.(keys := effect.keys, history := effect.history, procs := w.procs[pid := effect.pc])
    case Crash(pid) => w.(procs := w.procs - {pid})
    case LoseActive => w.(keys := w.keys.(active := None))
    case LoseRecord(id) => w.(keys := w.keys.(records := w.keys.records - {id}))
    case LosePosition =>
      w.(keys := w.keys.(position := None), history := w.history.(positionLost := true))
    case LoseMark(mark) => w.(keys := w.keys.(dispatched := w.keys.dispatched - {mark}))
  }

  predicate Initial(w: World) {
    w.keys == NoKeys && w.history == NoHistory && w.procs == map[]
  }

  /** A finite run: `ws` are the states passed through, `es` the events between them. */
  ghost predicate Run(ws: seq<World>, es: seq<Event>) {
    && |ws| == |es| + 1
    && Initial(ws[0])
    && forall i :: 0 <= i < |es| ==> Enabled(ws[i], es[i]) && ws[i + 1] == Next(ws[i], es[i])
  }
}
