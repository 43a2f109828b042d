/**
 The Redis side of the robot command protocol.  The keys of one robot form one
 value of type `Keys`; every Lua script is one atomic function on `Keys`, and the
 class `RobotCommandStore` runs the same scripts on mutable keys.
 */
module CommandStore {
  import opened Options

  type CommandId = nat
  type GroupId = nat
  type MapId = nat

  /** Microseconds since the epoch, the resolution of both Python datetimes and Redis TIME. */
  type Time = int

  datatype Point = Point(x: real, y: real)

  datatype Direction = North | South | East | West

  datatype CleaningAction = CleaningAction(isStart: bool, isFinish: bool, direction: Direction, distance: real)

  datatype Status = Queued | AwaitingAck | Succeeded | Failed | TimedOut | Cancelled

  /** The lifecycle states in which a command still holds its robot. */
  predicate Pending(s: Status) {
    s == Queued || s == AwaitingAck
  }

  /** Writing one of these states is refused once the old record's deadline has passed. */
  predicate DeadlineGuarded(s: Status) {
    s == Queued || s == AwaitingAck || s == Succeeded
  }

  datatype Record = Record(
    id: CommandId, attempt: int, action: CleaningAction, group: GroupId, map_: MapId,
    origin: Point, target: Point, status: Status,
    createdAt: Time, updatedAt: Time, deadline: Time, reason: Option<string>)

  datatype Position = Position(group: GroupId, map_: MapId, at: Point, command: CommandId, updatedAt: Time)

  /** The four kinds of Redis keys of one robot. */
  datatype Keys = Keys(
    active: Option<CommandId>, records: map<CommandId, Record>,
    position: Option<Position>, dispatched: set<(CommandId, int)>)

  const NoKeys := Keys(None, map[], None, {})

  /** `current` is the stored record of the command that holds the robot. */
  predicate Holds(k: Keys, current: Record) {
    k.active == Some(current.id) && current.id in k.records && k.records[current.id] == current
  }

  predicate CanReserve(k: Keys, seen: Option<Position>) {
    k.active == None && k.position == seen
  }

  function ReserveScript(k: Keys, command: Record): Keys {
    k.(active := Some(command.id), records := k.records[command.id := command])
  }

  predicate CanTransition(k: Keys, current: Record, updated: Record, now: Time) {
    Holds(k, current) && (DeadlineGuarded(updated.status) ==> now < current.deadline)
  }

  function TransitionScript(
    k: Keys, current: Record, updated: Record, terminal: bool, position: Option<Position>): Keys
  {
    k.(records := k.records[current.id := updated],
    active := if terminal then None else k.active,
    position := if position.Some? then position else k.position)
  }

  /** The dangling-reservation cleanup at the end of `active()`. */
  predicate CanClean(k: Keys, id: CommandId) {
    k.active == Some(id) && id !in k.records
  }

  /** The store on mutable keys: each script reads and writes the keys one by one. */
  class RobotCommandStore {
    var active: Option<CommandId>
    var records: map<CommandId, Record>
    var position: Option<Position>
    var dispatched: set<(CommandId, int)>

    ghost function View(): Keys
      reads this
    {
      Keys(active, records, position, dispatched)
    }

    constructor ()
      ensures View() == NoKeys
    {
      active, records, position, dispatched := None, map[], None, {};
    }

    method Reserve(command: Record, seen: Option<Position>) returns (reserved: bool)
      modifies this
      ensures reserved <==> old(CanReserve(View(), seen))
      ensures View() == if reserved then ReserveScript(old(View()), command) else old(View())
      ensures reserved <==> old(active).None? && old(position) == seen
      ensures
        reserved ==>
          && active == Some(command.id) && records == old(records)[command.id := command]
          && position == old(position) && dispatched == old(dispatched)
    {
      if active.Some? {
        return false;
      }
      if position != seen {
        return false;
      }
      active := Some(command.id);
      records := records[command.id := command];
      return true;
    }

    method Transition(
      current: Record, updated: Record, terminal: bool, confirmed: Option<Position>, now: Time)
      returns (applied: bool)
      modifies this
      ensures applied <==> old(CanTransition(View(), current, updated, now))
      ensures View() ==
              if applied then TransitionScript(old(View()), current, updated, terminal, confirmed) else old(View())
      ensures
        applied <==>
        && old(active) == Some(current.id)
        && current.id in old(records) && old(records)[current.id] == current
        && (now < current.deadline || updated.status in {Failed, TimedOut, Cancelled})
      ensures
        applied ==>
          && records == old(records)[current.id := updated] && dispatched == old(dispatched)
          && active == (if terminal then None else old(active))
          && position == (if confirmed.Some? then confirmed else old(position))
    {
      if active != Some(current.id) {
        return false;
      }
      if current.id !in records || records[current.id] != current {
        return false;
      }
      if DeadlineGuarded(updated.status) {
        if now >= current.deadline {
          return false;
        }
      }
      records := records[current.id := updated];
      if terminal {
        active := None;
      }
      if confirmed.Some? {
        position := confirmed;
      }
      return true;
    }

    /** The two reads and the cleanup of `active()` with nothing in between. */
    method Active() returns (command: Option<Record>)
      modifies this
      ensures command.Some? <==> old(active.Some? && active.value in records)
      ensures command.Some? ==> View() == old(View()) && command.value == records[active.value]
      ensures
        command.None? ==>
          active.None? && records == old(records) && position == old(position) && dispatched == old(dispatched)
    {
      if active.None? {
        return None;
      }
      var id := active.value;
      if id in records {
        return Some(records[id]);
      }
      if active == Some(id) && id !in records {
        active := None;
      }
      return None;
    }

    method Dispatched(command: Record) returns (confirmed: bool)
      ensures confirmed <==> (command.id, command.attempt) in dispatched
    {
      confirmed := (command.id, command.attempt) in dispatched;
    }

    method MarkDispatched(command: Record)
      modifies this
      ensures View() == old(View()).(dispatched := old(dispatched) + {(command.id, command.attempt)})
    {
      dispatched := dispatched + {(command.id, command.attempt)};
    }
  }
}
