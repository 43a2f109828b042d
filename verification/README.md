# Verified model of the Pleaco robot backend

This project models the parts of the Pleaco backend in which a Postgres row, a Redis
key, a message queue and several concurrent processes have to stay consistent, and
proves what they guarantee. `dafny verify dfyconfig.toml` checks everything.

## What is modelled

**Robot commands.** `CommandStore` holds the Redis keys of one robot and the Lua
scripts on them, as functions and as a class that runs them on mutable keys.
`RobotProtocol` is the concurrent system: submissions, queue messages and reconcilers
are processes with a program counter and the snapshots they took, a step is one read,
one clock reading, one script or one call to the device, and keys can expire or be
evicted at any moment. The two separate reads of `active()`, the rollback after a
failed publication and the crash between any two steps are steps like the others.
`RobotProtocolInvariant` is the inductive invariant, `RobotProtocolTheorems` what it
implies for steps and for whole runs. `RobotProtocolAlone` adds up the steps of a
process that nothing disturbs, and `RobotActionService` is the service as a class whose
calls are proved to be those runs. `RobotActionOutcomes` spells their outcomes out in
fields and `RobotMovement` the position in coordinates. `RobotKeys` shows why the keys of one robot can
be looked at alone.

**Robot status.** `RobotStatus` is the acceptance of events, the saved row and the
cache script; `RobotStatusProtocol` lets many workers commit and update the cache in
two separate transactions, with heartbeats, Redis failures and lost keys between.
`IsoTime` shows that the script may compare timestamps as strings.

**Map layout.** `DockingStations`, `DockingStationTable` and `DockingStationService`
are the station snapshot, `EnvironmentZones`, `EnvironmentZoneTable` and
`EnvironmentZoneService` the zone save, both row by row; `EnvironmentZoneAnswers` says
what its answer depends on. `MapLayout` describes a combined save, `Fleet` which robot
is on which map, `MapService` runs the operations as transactions over all tables,
`MapRuns` proves what every sequence of them keeps, and `MapOutcomes` states answers
and effects in the request and the stored rows alone.
A polygon is the finite set of grid cells it covers; polygons that share a cell
overlap, and a boundary covers the subsets of it.

**Messages.** `MessageQueue` tracks every copy of every message through source queue,
consumer, retry queue and dead-letter queue, `MessageRetries` counts invocations, and
`MessageConsumer` is the consumer callback as a method. `MessageOutcomes` says the
same in headers.

**Memberships and invitations.** `Invitations` has the rows, the two Redis keys and
their scripts, `GroupProtocol` the interleaved calls and evictions, `GroupService` the
repositories and the calls as classes, each call proved to be a run of the protocol;
`GroupOutcomes` states what each step needs and writes.

**Dispatch.** `CommandPublisher` is the fallback over the broker's addresses with its
split of the remaining time.

## Where the code does less than its comments or names say

- An OFFLINE event whose connection status did not change does not delete the live
  last-seen key. If it overtakes the cache step of the transition itself, the robot
  stays OFFLINE with a fresh heartbeat key (`OvertakenTransitionLeavesHeartbeat`);
  `OfflineStepClearsLive` says exactly when the key is cleared. The description of the
  cache update only speaks of transitions (app/external/redis/redis.py:56-62).
- `save_boundary` does not look at the stored zones again. It keeps the layout exactly
  when every stored zone of the map fits the new boundary
  (`BoundaryAloneKeepsLayout`, `BoundaryAloneCanUncoverAZone`). The route in use is
  `save_layout`, which does look.
- A station may protrude from the boundary by half a unit when stations are saved, but
  not when the same request also carries a boundary: `MapLayout.Acceptable` states both.
- Connection status, sequence and message id converge whatever the delivery order; the
  operational status and the address do so exactly under a condition on the events
  (`ConvergesExactlyWhenSettled`, with `OperationDependsOnOrder` as the input).
- At most one live invitation per member holds exactly as long as Redis evicts no index
  key before its invitation (`IndexIsKeptUnlessLost`, `LostIndexLeavesTwo`).
- An address gets its share of the time exactly when the ones before it used no more
  than theirs (`ShareIsTimeLeft`). The polling ensures that up to the overrun of a
  blocking call; an overrun can leave the next address nothing
  (`LateFailureStarvesTheNext`).

## Model

| member | source | states |
|---|---|---|
| CommandStore.RobotCommandStore.Reserve | app/external/redis/robot_commands.py:60-75 | a robot is reserved exactly when it is free and its stored position is still the one the submission read; otherwise no key changes |
| CommandStore.RobotCommandStore.Transition | app/external/redis/robot_commands.py:77-108 | a transition applies exactly when the command still holds the robot, its stored record is the expected one and, for the guarded states, its deadline has not come; then record, reservation and position change together |
| CommandStore.RobotCommandStore.Active | app/external/redis/robot_commands.py:39-54 | the holder's record, or none and the dangling reservation gone |
| CommandStore.RobotCommandStore.MarkDispatched | app/external/redis/robot_commands.py:116-117 | the marker of this attempt is added, nothing else changes |
| RobotProtocolInvariant.NextKeepsInv | app/services/robot_action.py:220-291 | every step of every process, key loss and crash keeps the protocol invariant |
| RobotProtocolInvariant.RunKeepsInv | app/services/robot_action.py:414-493 | the invariant holds in every state of every run |
| RobotActionOutcomes.SurroundingsSpelledOut | app/external/redis/robot_commands.py:19-124 | time advances, facts change, processes start and crash, and any key is lost at any moment, and nothing else happens then |
| RobotProtocolTheorems.NoProcessIsStuck | app/services/robot_action.py:220-528 | in every state of every run each process can take its next step, a reservation with a new id |
| RobotProtocolTheorems.CommandsChangeByTransition | app/external/redis/robot_commands.py:39-108 | a stored record changes only by a granted transition of that command; a reservation ends only by loss, by the cleanup of a missing record or by its own terminal transition |
| RobotProtocolTheorems.PositionMovesWithOneSuccess | app/services/robot_action.py:439-451 | the confirmed position changes only by loss or together with exactly one command becoming SUCCEEDED, to that command's origin plus its displacement, inside its map |
| RobotProtocolTheorems.SuccessConfirms | app/services/robot_action.py:442-451 | and every command that becomes SUCCEEDED moves the position to its target |
| RobotProtocolTheorems.OutcomeHasItsReason | app/services/robot_action.py:390-465 | SUCCEEDED needs a matching ACK before the deadline, FAILED a matching NACK of attempt 4, TIMED_OUT an elapsed deadline, CANCELLED a robot read as foreign, offline or stale |
| RobotProtocolTheorems.PublicationFollowsIntent | app/services/robot_action.py:466-493 | an envelope leaves only for a record saved as AWAITING_ACK at this attempt before its deadline; a dispatch marker exists only for an attempt that was sent |
| RobotProtocolTheorems.AttemptRisesOnNackOnly | app/services/robot_action.py:452-465 | the attempt rises only by one, on a NACK of the current attempt of an AWAITING_ACK record |
| RobotProtocolTheorems.NoEffectAfterLastDeadline | app/services/robot_action.py:455-492 | no dispatch, rollback, retry or success takes effect eight timeouts after the reservation, or two timeouts per attempt |
| RobotProtocolTheorems.RunContinues | app/services/robot_action.py:220-291 | from an earlier to a later state of a run, reservations, outcomes, confirmed positions and publications only grow |
| RobotProtocolTheorems.FinishedCommandStays | app/external/redis/robot_commands.py:77-108 | a finished command neither holds the robot nor is stored with another record after any step |
| RobotProtocolTheorems.LostRecordStaysLost | app/external/redis/robot_commands.py:39-54 | an evicted record is never written again |
| RobotProtocolTheorems.TerminalIsAbsorbing | app/services/robot_action.py:369-388 | over runs: once finished, a command never holds the robot and never changes, and it has at most one terminal transition, however stale the processes that go on |
| RobotProtocolTheorems.AttemptsAreMonotone | app/services/robot_action.py:432-493 | over runs the attempt never falls, rollbacks included, and stays within 1..4 |
| RobotProtocolTheorems.DeadlinesAreBounded | app/services/robot_action.py:64-66 | a QUEUED record at attempt k has deadline at most reservation + (2k-1) timeouts, an AWAITING_ACK one at most 2k; FAILED means attempt 4 |
| RobotProtocolTheorems.AtMostFourEnvelopes | app/services/robot_action.py:466-493 | at most four different envelopes of a command are ever published, all with its id and action |
| RobotProtocolTheorems.SuccessStartsWhereTheLastEnded | app/services/robot_action.py:164-218 | the origin of a success is the position confirmed before it, unless that was lost or on another map |
| RobotProtocolTheorems.DeadReckoning | app/services/robot_action.py:252-283 | while nothing is lost and the map stays, the position is the dock centroid of the first success plus the displacements of all successes, each once |
| RobotProtocolTheorems.DeadReckoningSinceTheDock | app/services/robot_action.py:164-191 | in every run, whatever was lost and however the map changed, a stored position is the dock centroid of the last success that started from the dock plus the displacements from that one on |
| RobotProtocolTheorems.DockOrContinued | app/services/robot_action.py:185-191 | every success started from the dock centroid or where the one before it ended, on the same group and map |
| RobotProtocolAlone.RunsAlone | app/services/robot_action.py:414-493 | the steps of one undisturbed process add up to one effect on the keys |
| RobotProtocolAlone.AcknowledgementRunsAlone | app/services/robot_action.py:432-465 | an undisturbed acknowledgement, in every case: no holder, dangling reservation, other command, ineligible with its reason, success, failure at four, next attempt |
| RobotProtocolAlone.CommandRunsAlone | app/services/robot_action.py:466-493 | an undisturbed command message in every case, with every way its publication or its marker can fail |
| RobotProtocolAlone.ReconcilerRunsAlone | app/services/robot_action.py:512-528 | an undisturbed reconciliation in every case |
| RobotProtocolAlone.SubmissionRunsAlone | app/services/robot_action.py:220-291 | an undisturbed submission with the reconciliation in its middle, accepted or refused |
| RobotProtocolAlone.ReconcilerReleasesExpiredHolder | app/services/robot_action.py:512-528 | a reconciler that runs undisturbed after the deadline times the holder out, frees the robot and leaves the position |
| RobotActionService.RobotActionService.Finish | app/services/robot_action.py:369-388 | the whole state after a finish: record with its reason, freed robot and position together, or nothing |
| RobotActionService.RobotActionService.CheckEligible | app/services/robot_action.py:390-412 | eligible exactly when in time, owned and live; otherwise a holder is closed with the terminal state and reason found first |
| RobotActionService.RobotActionService.ProcessAcknowledgement | app/services/robot_action.py:432-465 | the call leaves exactly the keys that the process of the concurrent protocol leaves when it runs alone |
| RobotActionService.RobotActionService.ProcessCommand | app/services/robot_action.py:466-493 | the same for a command message; it raises exactly when a dispatch was due and was not confirmed in time |
| RobotActionService.RobotActionService.Reconcile | app/services/robot_action.py:512-528 | the same for a reconciliation; saved intent is published again exactly for an eligible holder that is queued or unconfirmed |
| RobotActionService.RobotActionService.Submit | app/services/robot_action.py:220-291 | the same for a submission; an accepted command starts from the stored position of this group and map or else from the dock, its target lies the distance to the NORTH, SOUTH, EAST or WEST of there and on the map, and it holds the robot while position and markers stay |
| RobotActionService.DraftIsAdmissible | app/services/robot_action.py:136-218 | a ready robot gets the command exactly when it has no eligible holder, an origin, and the target on its map |
| RobotActionOutcomes.EligibleSpelledOut | app/services/robot_action.py:390-412 | a command goes on exactly before its deadline, on its own group and map, ONLINE, with a heartbeat not in the future and not older than allowed |
| RobotActionOutcomes.NoHolderSpelledOut | app/external/redis/robot_commands.py:39-54 | without a holder, or with one whose record is gone, every call leaves everything but the dangling reservation |
| RobotActionOutcomes.OtherMessagesChangeNothing | app/services/robot_action.py:414-431 | a message for another command, attempt or action changes no key |
| RobotActionOutcomes.IneligibleHolderSpelledOut | app/services/robot_action.py:390-412 | every call closes an ineligible holder with the status and reason of the first test that fails, keeps every other field and the position, and frees the robot |
| RobotActionOutcomes.AcknowledgementSpelledOut | app/services/robot_action.py:432-465 | field by field: the success with its confirmed target, the failure at the fourth attempt, the next attempt with its new deadline, and no change in any other status |
| RobotActionOutcomes.DispatchSpelledOut | app/services/robot_action.py:466-493 | field by field: the saved intent and its marker after a confirmed dispatch, exactly the record there was after one that failed in time |
| RobotActionOutcomes.DeliverySpelledOut | app/services/robot_action.py:466-528 | which saved intent is sent again, and exactly when a dispatch ends in an exception |
| RobotActionOutcomes.DraftSpelledOut | app/services/robot_action.py:220-291 | every field of an accepted command, with its target in coordinates |
| RobotActionOutcomes.DraftedExactlyWhen | app/services/robot_action.py:136-218 | from the origin there is, a ready robot gets the command exactly when it is free and the target is on the map |
| RobotActionOutcomes.NowhereToStart | app/services/robot_action.py:164-191 | without a position of this group and map and without a dock nothing is accepted |
| RobotMovement.PositionByDirection | app/services/robot_action.py:252-283 | in every run a stored position is the dock centroid of the last success that started there plus the distances of the NORTH successes since minus the SOUTH ones in y, and EAST minus WEST in x |
| RobotMovement.PositionFromTheFirstDock | app/services/robot_action.py:252-283 | the same from the first dock on while nothing is lost and the map stays |
| RobotMovement.SuccessMovesInItsDirection | app/services/robot_action.py:255-265 | a step that moves the position moves it by one command's distance, in that command's direction and no other, within its map |
| RobotMovement.TravelledByDirection | app/services/robot_action.py:255-265 | the displacements of a trail add up to the distances by direction |
| RobotKeys.RenderIsInjective | app/external/redis/robot_commands.py:19-29 | different robots, commands and attempts never share a key |
| RobotKeys.ScanRecoversRobot | app/external/redis/robot_commands.py:119-124 | splitting a reservation key at colons gives its robot back |
| RobotKeys.SplitRender | app/external/redis/robot_commands.py:110-124 | the parts of every key text are exactly the parts it was made of |
| IsoTime.IsoOrderIsTimeOrder | app/external/redis/redis.py:77-88 | string order of ISO texts is time order for all UTC instants, also where the zero fraction is omitted |
| IsoTime.EarlierFieldsIsEarlier | app/services/bot_status.py:77-79 | the order of calendar fields is the order on the time line |
| IsoTime.LexFraction | app/external/redis/redis.py:81-86 | a missing fraction sorts before every written one |
| IsoTime.IsoFormatIsInjective | app/services/bot_status.py:77-79 | equal texts are equal instants |
| IsoTime.TimeLineIsContinuous | app/services/bot_status.py:77-79 | on clock and calendar each microsecond is one later than the one before it, over ends of months, leap days and years |
| IsoTime.TextShowsTheDate | app/services/bot_status.py:77-79 | the text starts with the year, month and day in digits at their places |
| IsoTime.TextShowsTheClock | app/services/bot_status.py:77-79 | and goes on with hour, minute and second, six digits of fraction unless it is zero, and the UTC offset |
| RobotStatus.AcceptanceIsOrdered | app/services/bot_status.py:199-268 | what is accepted strictly raises the sequence; an operational event needs and keeps ONLINE |
| RobotStatus.SavedExactlyWhen | app/services/bot_status.py:237-268 | a row changes if and only if the event is newer and of another message and, when operational, finds the robot ONLINE and names no other connection |
| RobotStatus.SavedFactByFact | app/services/bot_status.py:319-377 | then sequence and message are the event's, every fact it carries is shown, and every other fact is kept |
| RobotStatus.LastSeenCaseByCase | app/services/bot_status.py:275-317 | and the durable last-seen time is the receipt time, the later of the saved one and the heartbeat, or as it was |
| RobotStatus.OfflineSnapshotNeverGoesBack | app/services/bot_status.py:275-317 | going offline never moves the durable last-seen time back and takes over the latest readable heartbeat |
| RobotStatus.LastSeenMovesOnTransitions | app/services/bot_status.py:275-291 | the durable last-seen time changes only with the connection: to the receipt time when it becomes ONLINE, to the heartbeat when it becomes OFFLINE |
| RobotStatus.HighestSequenceWins | app/services/bot_status.py:355-383 | after any deliveries of connectivity events in any order with duplicates the row shows the highest-numbered event and every fact it carries |
| RobotStatus.HighestWinsInMixedStreams | app/services/bot_status.py:199-268 | the same for streams of both kinds of events, as long as the operational ones are delivered while the robot is ONLINE |
| RobotStatus.OnlineStreamsAreDeliveredOnline | app/services/bot_status.py:237-268 | which they are whenever an ONLINE robot is told of no other connection |
| RobotStatus.DeliveryOrderDoesNotMatter | app/services/bot_status.py:199-268 | two delivery orders agree on sequence, message id and connection status |
| RobotStatus.ConvergesExactlyWhenSettled | app/services/bot_status.py:355-377 | the operational status, and likewise the address, is the same for all delivery orders if and only if the highest newer event carries it or no newer event carries another value than the row has |
| RobotStatus.HighestFactWins | app/services/bot_status.py:355-377 | whatever the highest newer event carries is what the row shows in the end |
| RobotStatus.OldEventsChangeNothing | app/services/bot_status.py:379-383 | without a newer event every delivery sequence leaves the row as it was |
| RobotStatus.OperationDependsOnOrder | app/services/bot_status.py:355-377 | two events whose order decides the operational status |
| RobotStatus.OperationIsUnsettled | app/services/bot_status.py:355-377 | those two events do not meet the condition for convergence |
| RobotStatus.RobotStatusCache.UpdateStatusCache | app/external/redis/redis.py:63-97 | the script on stored ISO texts does what a comparison of times would do, and applies exactly when the cached sequence is older |
| RobotStatusProtocol.CacheNeverLeadsRow | app/services/bot_status.py:98-197 | in every run the cached state is one that was committed with its sequence, and not ahead of the row |
| RobotStatusProtocol.CommittedIsFixed | app/services/bot_status.py:199-235 | what was committed with a sequence never changes |
| RobotStatusProtocol.CachedSequenceOnlyRises | app/external/redis/redis.py:63-77 | the cached sequence falls only when the cache is lost |
| RobotStatusProtocol.CurrentEventIsNeverRejected | app/services/bot_status.py:167-197 | the script's guard never rejects the event that is current under the row lock, and then cache and row agree |
| RobotStatusProtocol.CommitSavesTheEvent | app/services/bot_status.py:199-235 | the first transaction saves the event and hands on the saved state with the change of connection it made, or ends there |
| RobotStatusProtocol.StepsSpelledOut | app/services/bot_status.py:54-197 | events and heartbeats come, workers crash and keys are lost at any moment, and a worker goes on whenever it has work |
| RobotStatusProtocol.CacheStepWritesTheCurrentState | app/services/bot_status.py:167-197 | the second writes the row's state, and the live key by the change, exactly when the event is still current and Redis takes the call |
| RobotStatusProtocol.HeartbeatIsRecordedOnline | app/services/bot_status.py:54-96 | a heartbeat is recorded exactly for an ONLINE row |
| RobotStatusProtocol.LiveIsWrittenOnlyOnline | app/services/bot_status.py:63-96 | the live key is written only while the row is ONLINE |
| RobotStatusProtocol.OfflineStepClearsLive | app/external/redis/redis.py:77-88 | the cache step of a current OFFLINE event leaves no live key if and only if the event changed the connection or there was none |
| RobotStatusProtocol.LiveStaysAbsent | app/services/bot_status.py:63-96 | an absent live key stays absent until the row is ONLINE |
| RobotStatusProtocol.OfflineRobotStaysStale | app/services/bot_status.py:167-197 | after the cache step of a current OFFLINE event that changed the connection, or found no live key, the key stays absent until a later ONLINE commit |
| RobotStatusProtocol.OfflineStepStaysStaleExactly | app/services/bot_status.py:167-197 | the key stays absent until then if and only if the event changed the connection or there was no key |
| RobotStatusProtocol.OvertakenTransitionLeavesHeartbeat | app/services/bot_status.py:139-157 | a run in which an OFFLINE robot keeps a fresh live key |
| DockingStations.EveryPartIsUnique | app/repository/docking_station.py:353-463 | with any part of the prepared batch written, no two stations share a robot |
| DockingStations.EveryOrderIsUniqueThroughout | app/repository/docking_station.py:353-463 | every order of the rows passes only through tables that satisfy the unique constraint, swaps and cycles included |
| DockingStations.ClearedIsPrepared | app/services/docking_station.py:145-158 | deleting and releasing first is what makes the batch safe |
| DockingStations.EditsLeavePrepared | app/services/docking_station.py:145-158 | after the edits the table is still prepared for the inserts |
| DockingStations.ItemsFormGoodBatch | app/services/docking_station.py:216-262 | validation gives a batch with distinct robots, none of them docked on another map |
| DockingStations.BatchIsSnapshot | app/services/docking_station.py:130-162 | the statements together replace the map's stations by exactly the requested ones and leave other maps alone |
| DockingStations.AcceptableSpelledOut | app/services/docking_station.py:206-315 | a request is acceptable exactly when every item edits a station of the map, is placed well, and names no robot that is missing, on another map or docked on one |
| DockingStations.SnapshotSpelledOut | app/services/docking_station.py:366-386 | each item's row has its robot, its heading or else SOUTH, the snapped polygon or else the submitted one; nothing else is on the map and other maps are as before |
| DockingStationTable.StationTable.WriteRow | app/models/docking_station.py:30-32 | a row is refused exactly when another one has its robot |
| DockingStationTable.StationTable.WriteRows | app/repository/docking_station.py:353-463 | a prepared batch is written completely in whatever order the database picks, and never conflicts |
| DockingStationTable.StationTable.SaveMany | app/repository/docking_station.py:353-463 | the rows asked for come back in the order of the ids; a conflict leaves the table as it was and names the first station whose robot another one has |
| DockingStationTable.StationTable.ClearAssignments | app/repository/docking_station.py:337-351 | the named stations of this map lose their robot, nothing else changes |
| DockingStationTable.StationTable.FindError | app/services/docking_station.py:205-262 | no error exactly when the request is acceptable; otherwise the first one in request order |
| DockingStationTable.ErrorSpelledOut | app/services/docking_station.py:206-315 | what each error says of its item, that edits of missing stations come first, and that neither an earlier item nor an earlier test of this one has a fault |
| DockingStationService.DockingStationService.Clear | app/services/docking_station.py:145-152 | the stations that are dropped are gone, those whose robot changes serve none, all others are as before |
| DockingStationService.DockingStationService.Merge | app/services/docking_station.py:159-162 | rows of both actions go back to their places in the request |
| DockingStationService.DockingStationService.SaveStations | app/services/docking_station.py:130-162 | accepted exactly when acceptable; then a snapshot without any constraint violation, and answer k and its stored row have item k's robot, heading or SOUTH, and snapped or submitted polygon; else nothing changes |
| EnvironmentZones.SaveKeepsDisjoint | app/services/environment_zones.py:178-277 | an accepted request keeps the zones of every map pairwise apart |
| EnvironmentZones.SaveCoversWrites | app/services/environment_zones.py:60-94 | an accepted request keeps every zone within its map's boundary |
| EnvironmentZones.SaveIsSaved | app/services/environment_zones.py:241-277 | deleted zones are gone, edits keep their id, creates get new ones, all else is untouched and nothing else is stored |
| EnvironmentZoneAnswers.SavedSpelledOut | app/services/environment_zones.py:241-277 | item by item: its zone has its kind and cells under its own or a new id, deleted zones are gone, and a zone that was not there before was created by the request |
| EnvironmentZoneTable.ZoneTable.UpdateMany | app/repository/environment_zone.py:289-309 | row-by-row updates rewrite exactly the edited zones that are on the map |
| EnvironmentZoneTable.ZoneTable.CreateMany | app/repository/environment_zone.py:311-343 | one row per created zone is added |
| EnvironmentZoneTable.ZoneTable.InspectCoverage | app/services/environment_zones.py:60-94 | a missing boundary, or the first zone that is invalid or not covered, if there is one |
| EnvironmentZoneTable.ZoneTable.FindBatchOverlap | app/repository/environment_zone.py:140-177 | the lowest pair of overlapping submitted zones, if there is one |
| EnvironmentZoneTable.ZoneTable.FindExistingOverlap | app/repository/environment_zone.py:179-217 | the first submitted zone that overlaps a stored zone the request does not name |
| EnvironmentZoneTable.ZoneTable.HasOutsideBoundary | app/repository/environment_zone.py:265-287 | true exactly when some stored zone of the map is not covered |
| EnvironmentZoneService.EnvironmentZoneService.Partition | app/services/environment_zones.py:31-57 | deletes, creates and edits in request order, each item in exactly one list |
| EnvironmentZoneService.EnvironmentZoneService.FindError | app/services/environment_zones.py:199-239 | no error exactly when the request is acceptable; otherwise the first fault of its kind, creates before edits, no earlier check failing |
| EnvironmentZoneService.EnvironmentZoneService.SaveZones | app/services/environment_zones.py:178-277 | accepted exactly when acceptable, with the one answer there is; the layout stays disjoint and covered; refused requests change nothing; an empty one clears the map |
| EnvironmentZoneAnswers.AcceptableSpelledOut | app/services/environment_zones.py:199-239 | a request is acceptable exactly when each item edits a zone of this map, is valid, nonempty and inside, shares no cell with a zone of this map that the request leaves alone, and no two items share one |
| EnvironmentZoneAnswers.ErrorSpelledOut | app/services/environment_zones.py:60-130 | what each error says of its item in terms of cells; an overlap with stored zones needs one of this map that the request does not name |
| EnvironmentZoneAnswers.FirstFaultIsReported | app/services/environment_zones.py:199-239 | no item that is validated earlier, creates before edits and each in request order, has the fault that is reported |
| EnvironmentZoneAnswers.AnswerIsLocal | app/repository/environment_zone.py:204-212 | the answer is the same on the table without the zones of other maps |
| EnvironmentZoneAnswers.AnswerIsUnique | app/services/environment_zones.py:199-239 | every request has one answer |
| MapLayout.CoverageIsAboutZonesThatStay | app/services/map.py:256-261 | the zone query at the end of a layout save decides exactly whether the zones that stay fit the new boundary |
| MapLayout.CoverageIsAboutRequestedStations | app/services/map.py:261-265 | the station query at the end decides exactly whether the requested stations are fully inside |
| MapLayout.BoundaryAloneKeepsLayout | app/services/map.py:119-138 | a boundary saved on its own keeps the layout if and only if every stored zone of the map fits it |
| MapLayout.BoundaryAloneCanUncoverAZone | app/services/map.py:119-138 | a boundary that uncovers a stored zone |
| MapLayout.DimensionsAlwaysFit | app/services/map.py:148-193 | a boundary taken from the dimensions is refused only for the dimensions; an accepted boundary is nonempty and within the map |
| MapOutcomes.BoundaryErrorSpelledOut | app/services/map.py:148-193 | each boundary error exactly when, in coordinates |
| MapOutcomes.NewBoundariesSpelledOut | app/services/map.py:148-202 | only this map's boundary changes, to all cells of its dimensions or to the submitted polygon |
| MapOutcomes.LayoutAcceptedExactlyWhen | app/services/map.py:220-267 | a layout is accepted exactly when each section is accepted against the new boundary, and that boundary cuts neither a zone that is left alone nor a station the map will have |
| MapOutcomes.LayoutErrorSpelledOut | app/services/map.py:220-267 | what each error of a refused layout says of the request and the state before it, with every earlier step passing |
| MapOutcomes.LayoutSparesTheRest | app/services/map.py:220-267 | an accepted layout leaves sections it does not have, and all other maps, as they were |
| MapOutcomes.LayoutStoresTheRequest | app/services/map.py:220-267 | and stores every zone and station as it was asked for |
| Fleet.ContextIsUnique | app/repository/robot_action.py:19-38 | the command context is one row per robot, and it has the robot's station whenever there is one |
| Fleet.SnapshotKeepsFleet | app/services/docking_station.py:293-315 | an accepted station save assigns only robots of its own map |
| Fleet.DeletionKeepsFleet | app/services/bot.py:323-349 | deleting a robot leaves no station serving nobody |
| Fleet.NewMapKeepsFleet | app/services/map.py:507-532 | putting unassigned robots on a new map disturbs no station |
| MapRuns.SavedStaysDisjoint | app/services/environment_zones.py:178-277 | what a save promises is enough to keep zones apart, whatever it did in between |
| MapRuns.SnapshotStaysUnique | app/services/docking_station.py:130-162 | what a station save promises is enough for the unique robot constraint |
| MapRuns.StepKeepsInv | app/services/map.py:204-424 | every accepted operation, renaming a map included, keeps layout, fleet and map names consistent |
| MapRuns.LayoutHoldsThroughout | app/services/map.py:220-267 | in every run two zones of one map share no cell and each lies within the map's boundary, which then exists |
| MapRuns.FleetHoldsThroughout | app/services/map.py:507-532 | in every run robots are on maps of their own group, stations serve robots that exist, and map names are unique in a group |
| MapRuns.ContextHoldsThroughout | app/repository/robot_action.py:19-38 | in every run a robot has at most one station, on its own map, and one context row |
| MapService.MapService.SaveBoundary | app/services/map.py:148-202 | the error of dimensions, geometry, topology or size, else the boundary is the rectangle or the submitted polygon |
| MapService.MapService.SaveLayout | app/services/map.py:204-268 | accepted exactly when the request and the state before it say so; then all sections are applied, else everything is as before and the error is the first failing step |
| MapService.MapService.CreateMap | app/services/map.py:315-351 | the error in every case, else the new map with exactly the requested robots on it |
| MapService.MapService.UpdateMap | app/services/map.py:380-458 | a map is renamed exactly when it is the group's and no other map of the group has the name |
| MapService.MapService.DeleteBot | app/services/bot.py:323-349 | refused for a missing or executing robot, else the robot and its station go |
| MapService.MapService.AssignRobot | app/services/docking_station.py:51-95 | the error in every case, else exactly this station, which served no robot, gets this one; the constraint is never hit |
| MapOutcomes.AssignmentSpelledOut | app/services/docking_station.py:51-95 | an assignment is accepted exactly for a station of the map without a robot and a robot of the group on this map without a station; only that station's robot changes |
| MapOutcomes.AssignmentErrorSpelledOut | app/services/docking_station.py:51-95 | each of its errors exactly when, in the order of the tests |
| MapOutcomes.MapCreationSpelledOut | app/services/map.py:315-351 | exactly the named robots, which were on no map, are put on the new one; nothing else changes |
| MapOutcomes.DeletionSpelledOut | app/services/bot.py:323-349 | a robot goes with exactly the stations that served it |
| MapService.MapService.Context | app/repository/robot_action.py:19-38 | the robot's only station on its own map of its own group, or none exactly when it has none |
| MapService.CountFound | app/services/map.py:507-524 | of distinct ids, as many rows as ids come back exactly when every id has a row |
| MessageQueue.NextKeepsInv | app/external/queues/queue.py:232-321 | every step of broker and consumer keeps the account of copies and calls |
| MessageOutcomes.StepsSpelledOut | app/external/queues/queue.py:232-321 | when each step of broker and consumer is possible: messages come, deliveries are taken back and retries expire at any moment |
| MessageQueue.SomeCopyRemains | app/external/queues/queue.py:286-321 | whatever happens to one copy, the message stays somewhere until a handler success is acknowledged |
| MessageQueue.NoMessageIsLost | app/external/queues/queue.py:242-321 | in every run a message is acknowledged after a handler success or has a copy in source, consumer, retry or dead-letter queue that no pending ack will remove |
| MessageQueue.RetriesAreBounded | app/external/queues/queue.py:276-288 | every copy is the original or a retry with a count up to the limit that a handler cannot tell apart otherwise |
| MessageQueue.DeadLettersAreHopeless | app/external/queues/queue.py:242-279 | a dead letter could not be read or had no attempt left |
| MessageQueue.DeadLettersStay | app/external/queues/queue.py:276-279 | a dead letter stays as it is for the rest of the run, and what is done stays done |
| MessageQueue.HandlersSeeTheOriginal | app/external/queues/queue.py:252-268 | every invocation gets the original payload, routing key, correlation and application headers |
| MessageQueue.RetryCopyIsRetry | app/external/queues/queue.py:280-288 | a retry of a copy that has attempts left descends from the same message, and its count is one higher |
| MessageOutcomes.RetryCopySpelledOut | app/external/queues/queue.py:280-288 | the retry, header by header: count, original key, no CC and BCC, all others kept, and an id |
| MessageOutcomes.UnreadableExactlyWhen | app/external/queues/queue.py:242-268 | a message is unreadable exactly for a malformed body or a malformed retry or key header |
| MessageOutcomes.GivenUpExactlyWhen | app/external/queues/queue.py:276-279 | a failure is final exactly without requeueing or when the count header has reached the limit |
| MessageOutcomes.RetriesAreBoundedSpelledOut | app/external/queues/queue.py:276-288 | over runs: a copy that is not the original carries a higher count, at most the limit, and the same body, correlation and application headers |
| MessageOutcomes.HandlersSeeTheOriginalSpelledOut | app/external/queues/queue.py:252-268 | over runs: every invocation in the fields of the original message |
| MessageOutcomes.DeadLetterSpelledOut | app/external/queues/queue.py:242-279 | over runs: why a message is among the dead letters, in its headers |
| MessageRetries.FailingHandlerUsesItsAttempts | app/external/queues/queue.py:270-321 | a handler that keeps failing is invoked once per granted attempt, limit+1 for a new message, and the message is given up after the last one and not before |
| MessageOutcomes.NewMessageUsesItsAttempts | app/external/queues/queue.py:270-321 | a new message is tried limit + 1 times with requeueing and once without, and is given up exactly then |
| MessageConsumer.Consumer.MakeRetry | app/external/queues/queue.py:280-288 | the edited copy is the retry message |
| MessageConsumer.Consumer.RetryDelivery | app/external/queues/queue.py:289-320 | after a confirmed publication the delivery is acknowledged, after a failed one it goes back or is left to the broker |
| MessageConsumer.Consumer.ConsumeMessage | app/external/queues/queue.py:232-321 | the state after one delivery in every case |
| Invitations.ReplaceKeepsIndex | app/repository/group_invitations.py:32-52 | a replacement removes the invitation it supersedes, so index and invitation keys agree |
| Invitations.ConsumeKeepsIndex | app/repository/group_invitations.py:66-79 | consuming an old invitation leaves a newer one and its index alone |
| Invitations.OneLivePerMember | app/repository/group_invitations.py:32-52 | with agreeing keys two live invitations of one member are the same |
| Invitations.ReplaceLeavesOneExactlyWhenIndexed | app/repository/group_invitations.py:32-52 | a replacement leaves one live invitation of the member if and only if any other live one is the one the index names |
| Invitations.DroppedIndexKeepsIndexUnlessInUse | app/repository/group_invitations.py:32-79 | losing an index key breaks the agreement of the keys if and only if its invitation is still live |
| Invitations.EvictedIndexLeavesTwo | app/repository/group_invitations.py:32-52 | an input on which two invitations stay live |
| Invitations.SweepSpelledOut | app/repository/group_members.py:240-265 | a row changes by the sweep if and only if it waits with an expiry not later than now; then it is rejected with its role and without invitation |
| Invitations.UpsertSpelledOut | app/repository/group_members.py:171-201 | of several invitations for one member the last one is written, and rows that no invitation names stay |
| Invitations.RankIsTheHierarchy | app/services/group.py:341-411 | the ranks compare as owner over admin over moderator over member over guest, and invitable is what is below admin |
| GroupProtocol.NextKeepsInv | app/services/group.py:264-588 | every step, evictions included, keeps rows, keys and approved changes consistent, and changes no owner of an existing group |
| GroupProtocol.OwnersAreFrozen | app/services/group.py:341-470 | over runs no owner of a group is added, removed or demoted, whatever role requesters are believed to have |
| GroupProtocol.CreationSetsTheOwners | app/services/group.py:640-686 | a new group has exactly the owners it was created with |
| GroupProtocol.PendingCarriesAnInvitation | app/repository/group_members.py:171-265 | in every run a membership is pending exactly when it carries an invitation id, and exactly when it carries an expiry |
| GroupProtocol.ActivationNeedsTheCurrentInvitation | app/repository/group_members.py:203-232 | a membership becomes accepted only through its current unexpired invitation, with the invited role |
| GroupProtocol.ActivationRetires | app/repository/group_members.py:212-230 | an activation retires its invitation |
| GroupProtocol.RetiredForEver | app/services/group.py:264-309 | an invitation that was superseded, expired, accepted or deleted is never current again |
| GroupProtocol.RetiredNeverActivates | app/services/group.py:511-545 | whenever such an invitation is presented later, nothing is activated |
| GroupProtocol.IndexIsKeptUnlessLost | app/repository/group_invitations.py:32-79 | every step keeps index and invitations in agreement if and only if it is not the eviction of an index in use |
| GroupProtocol.OneLiveInvitation | app/repository/group_invitations.py:32-79 | in every run in which no index key is evicted while its invitation is live, a member has at most one live invitation to a group |
| GroupProtocol.LostIndexLeavesTwo | app/repository/group_invitations.py:32-52 | after such an eviction the next invitation stored for the member leaves two |
| GroupOutcomes.InvitationAllowedExactlyWhen | app/services/group.py:230-339 | exactly which batches may be invited |
| GroupOutcomes.InvitationSpelledOut | app/repository/group_members.py:171-201 | every invited row waits seven days for its invitation; rows, invitations and scripts of others stay |
| GroupOutcomes.StorageSpelledOut | app/repository/group_invitations.py:32-52 | key by key what the script that stores an invitation writes and removes |
| GroupOutcomes.ActivationSpelledOut | app/repository/group_members.py:203-238 | an activation changes exactly the row that waits for this invitation before its expiry |
| GroupOutcomes.ForgettingSpelledOut | app/repository/group_invitations.py:66-79 | key by key what forgetting an invitation removes |
| GroupOutcomes.SweepingSpelledOut | app/repository/group_members.py:240-265 | the sweep step rejects exactly the due rows and touches nothing else |
| GroupOutcomes.UpdateSpelledOut | app/services/group.py:341-411 | which role changes are approved, in roles instead of ranks, and that the write changes one accepted row only |
| GroupOutcomes.RemovalSpelledOut | app/services/group.py:428-473 | which removals are approved, and that the write takes one row only |
| GroupService.GroupMembersRepository.UpsertPendingInvitations | app/repository/group_members.py:171-201 | every invited member waits for its last invitation with that role and expiry; all other rows are as before |
| GroupService.GroupMembersRepository.AcceptPendingInvitation | app/repository/group_members.py:203-238 | the row is accepted, with its role and without invitation, and returned exactly when it waits for this invitation and the expiry has not come; no other row changes |
| GroupService.GroupMembersRepository.RejectExpiredInvitations | app/repository/group_members.py:240-265 | exactly the rows that wait with an expiry not later than now are rejected, with their role and without invitation; all others are as before, and the count is the number of due rows |
| GroupService.GroupMembersRepository.UpdateGroupMemberRole | app/repository/group_members.py:65-93 | exactly an accepted row changes, and only its role |
| GroupService.GroupInvitationRepository.ReplacePendingInvitation | app/repository/group_invitations.py:32-52 | the new invitation and its index live seven days, the one an unexpired index named is gone, every other key is as before |
| GroupService.GroupInvitationRepository.ConsumeInvitation | app/repository/group_invitations.py:66-79 | the invitation is gone, and its index exactly when it names it and has not expired; every other key is as before |
| GroupService.GroupMembersRepository.CreateOwnerRows | app/services/group.py:640-686 | every named user owns the group, and no other row changes |
| GroupService.GroupService.CreateGroup | app/services/group.py:640-686 | the call is the protocol's creation; the creator and the named users own the group and no other row changes |
| GroupService.GroupService.CheckRequest | app/services/group.py:91-197 | a request passes exactly when its roles are guest, member or moderator and it names distinct, known and eligible accounts |
| GroupService.GroupService.InviteGroupMembers | app/services/group.py:230-339 | accepted exactly when the request resolves and the protocol allows the batch; then the call is that invitation followed by the scripts that succeed, every requested account waits seven days for its invitation, and no other row changes |
| GroupService.GroupService.ValidateGroupInvitation | app/services/group.py:475-546 | done exactly for the recipient of a live invitation whose row waits for it in time or is accepted; the call is the run open, activate, forget, cut short where it fails |
| GroupService.GroupService.UpdateGroupMember | app/services/group.py:341-411 | done exactly for an accepted other member ranked below the requester and a role below the requester's; then only this role changes, and the call is the run approve, commit |
| GroupService.GroupService.DeleteGroupMember | app/services/group.py:428-473 | done exactly for another member ranked below the requester; then exactly this row goes, with its live invitation, and the call is the run approve, forget, commit |
| GroupService.GroupService.RejectExpiredGroupInvitations | app/services/group.py:578-588 | the call is the protocol's sweep: exactly the due rows are rejected and counted, and afterwards no pending membership is due |
| CommandPublisher.PublishOnce | app/external/mqtt/robot_action.py:135-198 | a command is sent exactly when the connection is up by its own limit, or noticed within the overrun, and before the expiry; it is published exactly when the broker also confirms before the expiry; everything else about the connection is a connection failure that ends by that limit plus the overrun |
| CommandPublisher.AtMostOnePublication | app/external/mqtt/robot_action.py:223-240 | one call hands the command to the device at most once, as its last attempt, before the expiry |
| CommandPublisher.SharesNeverShrink | app/external/mqtt/robot_action.py:227 | an attempt that ends by its limit leaves the others at least its own share |
| CommandPublisher.PromptEndsByItsLimit | app/external/mqtt/robot_action.py:150-174 | the polling ends the connect phase of an address without overrun by its own limit |
| CommandPublisher.EveryAddressGetsItsShare | app/external/mqtt/robot_action.py:223-229 | with n addresses, one that is tried after addresses without overrun gets at least the n-th part of the budget left after name resolution, and no limit passes the expiry |
| CommandPublisher.ShareIsTimeLeft | app/external/mqtt/robot_action.py:223-229 | a tried address gets its n-th part if and only if the addresses before it used no more than theirs, which follows from what they do |
| CommandPublisher.LateFailureStarvesTheNext | app/external/mqtt/robot_action.py:223-229 | two addresses, of which the first oversteps its limit and the second is left nothing |
| CommandPublisher.PromptFailureLeavesTheNext | app/external/mqtt/robot_action.py:223-240 | without the overrun the second address publishes |
| CommandPublisher.RobotActionMqttGateway.PublishCommand | app/external/mqtt/robot_action.py:200-257 | which calls make no attempt at all, how the attempts follow each other, that nothing is sent at or after the deadline, and that the call succeeds exactly when the last attempt published, which its address then confirmed in time |

## Left out

- Time and numbers: coordinates and times are exact, so the rounding of `float(target_x)` and of the Redis clock is not modelled; the service clock and the Redis clock are one clock.
- Records are compared as values, not as JSON text.
- One robot at a time: the command and status machines hold the keys of one robot; `RobotKeys` shows that keys of different robots are different.
- `submit` reconciles the robot first; in the concurrent model that reconciliation is a process of its own.
- A Redis script that takes effect only after its client has given up on it is not modelled for commands and status; a failed call had its effect before it returned or never.
- The status machine does not delete robots; app/services/bot_status.py ignores events for missing rows.
- PostGIS: validity, edge alignment, allowed protrusion and snapping of polygons are inputs; covering and overlap are computed on cell sets, so touching edges are simply cells not shared.
- MapService.MapService.CreateMap: the tags are looked up but not linked, and a map's description and status are not part of its row, because nothing else depends on them.
- MapService.MapService.UpdateMap: description and tag links, for the same reason.
- GroupProtocol.NextKeepsInv: an invitation transaction is one step, because its check takes no row lock and a concurrent acceptance of the same row between its read and its write is not excluded by the code.
- User accounts are a table from address to account, with addresses already in lower case; the role cache and permission tables are not modelled, so a requester's role is an arbitrary input.
- Acknowledgement ingress over MQTT (`handle_message`): in the command machine acknowledgements are arbitrary, so its filter only removes some of them.
- Threads, sockets and the Paho client: one run of the publication worker is its connect phase followed by its publish phase.
- Cancelling a publication or stopping the gateway while a call is running.
- RabbitMQ is an at-least-once broker whose queues and confirmed publications last; queue declarations, policies and prefetch are not modelled.
- Liveness that depends on brokers or robots answering, and the broadcast of status changes.
- HTTP, Socket.IO, mail, templates, login, listing, pagination and tag synchronisation.
