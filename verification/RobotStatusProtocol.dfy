/**
 Status reconciliation of one robot by many workers: the row is saved in one locked
 transaction, the cache is updated in a later one, and heartbeats, failures and
 lost keys fall in between.
 */
module RobotStatusProtocol {
  import opened Options
  import opened RobotStatus

  /** A worker before its first transaction, between the two, and after. */
  datatype Worker =
    | Received(event: Event, receivedAt: Time)
    | Saved(event: Event, state: State, changed: bool, receivedAt: Time)
    | Done

  /** `committed` remembers the state saved with each sequence number; no step reads it. */
  datatype World = World(
    now: Time, row: Row, cache: Option<State>, live: Option<Time>,
    workers: map<nat, Worker>, committed: map<nat, State>)

  /** `reached` and `took` say whether a Redis call could be answered, and whether it had its effect. */
  datatype Step =
    | Tick(to: Time)
    | Receive(worker: nat, event: Event)
    | Commit(worker: nat, reached: bool)
    | UpdateCache(worker: nat, took: bool)
    | Heartbeat(took: bool)
    | LoseCache
    | LoseLive
    | Crash(worker: nat)

  predicate Enabled(w: World, s: Step) {
    match s
    case Tick(to) => w.now <= to
    case Receive(worker, _) => worker !in w.workers
    case Commit(worker, _) => worker in w.workers && w.workers[worker].Received?
    case UpdateCache(worker, _) => worker in w.workers && w.workers[worker].Saved?
    case _ => true
  }

  function CommitStep(w: World, worker: nat, e: Event, receivedAt: Time, reached: bool): World {
    if !Accepts(w.row.state, e) then
      w.(workers := w.workers[worker := Done])
    else
      var row := Save(w.row, e, receivedAt, if reached then w.live else None);
      w.(row := row,
      workers := w.workers[worker := Saved(e, row.state, row.state.connection != w.row.state.connection, receivedAt)],
      committed := w.committed[e.sequence := row.state])
  }

  /** The second transaction: nothing happens unless the event is still the latest of the row. */
  predicate Current(w: World, e: Event) {
    w.row.state.sequence == Some(e.sequence)
  }

  function CacheStep(
    w: World, worker: nat, state: State, e: Event, changed: bool, receivedAt: Time, took: bool): World
  {
    if Current(w, e) && took && ScriptApplies(w.cache, e.sequence) then
      w.(cache := Some(state),
      live := LiveAfter(w.live, state.connection, changed, receivedAt),
      workers := w.workers[worker := Done])
    else
      w.(workers := w.workers[worker := Done])
  }

  function Next(w: World, s: Step): World
    requires Enabled(w, s)
  {
    match s
    case Tick(to) => w.(now := to)
    case Receive(worker, event) => w.(workers := w.workers[worker := Received(event, w.now)])
    case Commit(worker, reached) =>
      CommitStep(w, worker, w.workers[worker].event, w.workers[worker].receivedAt, reached)
    case UpdateCache(worker, took) =>
      var p := w.workers[worker];
      CacheStep(w, worker, p.state, p.event, p.changed, p.receivedAt, took)
    case Heartbeat(took) =>
      if w.row.state.connection == Online && took then w.(live := Some(w.now)) else w
    case LoseCache => w.(cache := None)
    case LoseLive => w.(live := None)
    case Crash(worker) => w.(workers := w.workers - {worker})
  }

  /** Any row to start from, nothing cached and nobody at work. */
  predicate Initial(w: World) {
    && w.cache.None? && w.workers == map[]
    && w.committed == if w.row.state.sequence.Some? then map[w.row.state.sequence.value := w.row.state] else map[]
  }

  ghost predicate Run(ws: seq<World>, ss: seq<Step>) {
    && |ws| == |ss| + 1
    && Initial(ws[0])
    && forall i :: 0 <= i < |ss| ==> Enabled(ws[i], ss[i]) && ws[i + 1] == Next(ws[i], ss[i])
  }

  // ---------------------------------------------------------------- the invariant

  ghost predicate RowOk(w: World) {
    && (w.row.state.sequence.None? ==> w.committed == map[])
    && (w.row.state.sequence.Some? ==>
          && w.row.state.sequence.value in w.committed
          && w.committed[w.row.state.sequence.value] == w.row.state)
    && (forall n :: n in w.committed ==>
          w.committed[n].sequence == Some(n) && w.row.state.sequence.Some? && n <= w.row.state.sequence.value)
  }

  predicate CacheOk(w: World) {
    w.cache.Some? ==>
      && w.cache.value.sequence.Some?
      && w.cache.value.sequence.value in w.committed
      && w.committed[w.cache.value.sequence.value] == w.cache.value
  }

  /** A worker between its transactions holds what was committed, and nobody else will write it to the cache. */
  predicate SavedOk(w: World, worker: nat)
    requires worker in w.workers
  {
    w.workers[worker].Saved? ==>
      var p := w.workers[worker];
      && p.event.sequence in w.committed && w.committed[p.event.sequence] == p.state
      && (w.cache.Some? ==> w.cache.value.sequence != Some(p.event.sequence))
  }

  ghost predicate WorkersOk(w: World) {
    && (forall p :: p in w.workers ==> SavedOk(w, p))
    && (forall p, q ::
          p in w.workers && q in w.workers && p != q && w.workers[p].Saved? && w.workers[q].Saved? ==>
            w.workers[p].event.sequence != w.workers[q].event.sequence)
  }

  ghost predicate Inv(w: World) {
    RowOk(w) && CacheOk(w) && WorkersOk(w)
  }

  lemma CommitKeepsInv(w: World, worker: nat, e: Event, receivedAt: Time, reached: bool)
    requires Inv(w) && worker in w.workers && w.workers[worker].Received?
    ensures Inv(CommitStep(w, worker, e, receivedAt, reached))
  {
    var w' := CommitStep(w, worker, e, receivedAt, reached);
    if Accepts(w.row.state, e) {
      assert e.sequence !in w.committed;
      forall p | p in w'.workers ensures SavedOk(w', p) {
        if p != worker {
          assert SavedOk(w, p);
        }
      }
    } else {
      forall p | p in w'.workers ensures SavedOk(w', p) {
        if p != worker {
          assert SavedOk(w, p);
        }
      }
    }
  }

  lemma CacheKeepsInv(w: World, worker: nat, took: bool)
    requires Inv(w) && Enabled(w, UpdateCache(worker, took))
    ensures Inv(Next(w, UpdateCache(worker, took)))
  {
    var w' := Next(w, UpdateCache(worker, took));
    assert SavedOk(w, worker);
    forall p | p in w'.workers ensures SavedOk(w', p) {
      if p != worker {
        assert SavedOk(w, p);
      }
    }
  }

  lemma NextKeepsInv(w: World, s: Step)
    requires Inv(w) && Enabled(w, s)
    ensures Inv(Next(w, s))
  {
    match s
    case Commit(worker, reached) =>
      CommitKeepsInv(w, worker, w.workers[worker].event, w.workers[worker].receivedAt, reached);
    case UpdateCache(worker, took) => CacheKeepsInv(w, worker, took);
    case _ =>
      var w' := Next(w, s);
      forall p | p in w'.workers ensures SavedOk(w', p) {
        if p in w.workers {
          assert SavedOk(w, p);
        }
      }
  }

  lemma RunKeepsInv(ws: seq<World>, ss: seq<Step>, i: nat)
    requires Run(ws, ss) && i < |ws|
    ensures Inv(ws[i])
  {
    if i > 0 {
      RunKeepsInv(ws, ss, i - 1);
      NextKeepsInv(ws[i - 1], ss[i - 1]);
    }
  }

  // ---------------------------------------------------------------- what single steps do

  /** Events arrive, heartbeats come, workers crash and Redis loses keys at any moment; a worker goes on when it can. */
  lemma StepsSpelledOut(w: World, s: Step)
    ensures
      Enabled(w, s) <==>
      && (s.Tick? ==> w.now <= s.to)
      && (s.Receive? ==> s.worker !in w.workers)
      && (s.Commit? ==> s.worker in w.workers && w.workers[s.worker].Received?)
      && (s.UpdateCache? ==> s.worker in w.workers && w.workers[s.worker].Saved?)
    ensures
      s.Receive? && Enabled(w, s) ==>
        Next(w, s) == w.(workers := w.workers[s.worker := Received(s.event, w.now)])
    ensures s.LoseCache? ==> Next(w, s) == w.(cache := None)
    ensures s.LoseLive? ==> Next(w, s) == w.(live := None)
    ensures s.Crash? ==> Next(w, s) == w.(workers := w.workers - {s.worker})
  {
  }

  /** The first transaction saves the event under the row lock and hands on what it saved, with the change it made. */
  lemma CommitSavesTheEvent(w: World, worker: nat, reached: bool)
    requires Enabled(w, Commit(worker, reached))
    ensures
      var p, w' := w.workers[worker], Next(w, Commit(worker, reached));
      && w'.row == Save(w.row, p.event, p.receivedAt, if reached then w.live else None)
      && w'.cache == w.cache && w'.live == w.live
      && w'.workers[worker] ==
         if w'.row == w.row then Done
         else
           Saved(p.event, w'.row.state, w'.row.state.connection != w.row.state.connection, p.receivedAt)
  {
    SavedExactlyWhen(w.row, w.workers[worker].event, w.workers[worker].receivedAt, if reached then w.live else None);
  }

  /** The second transaction writes exactly when the row still has the event's sequence and Redis takes the call. */
  lemma CacheStepWritesTheCurrentState(w: World, worker: nat, took: bool)
    requires Inv(w) && Enabled(w, UpdateCache(worker, took))
    ensures
      var p, w' := w.workers[worker], Next(w, UpdateCache(worker, took));
      var current := w.row.state.sequence == Some(p.event.sequence);
      && w'.row == w.row
      && w'.cache == (if current && took then Some(w.row.state) else w.cache)
      && (!(current && took && p.changed) || p.state.connection == Stale ==> w'.live == w.live)
      && (current && took && p.changed && p.state.connection == Offline ==> w'.live == None)
      && (current && took && p.changed && p.state.connection == Online ==>
            w'.live == if w.live.Some? && w.live.value >= p.receivedAt then w.live else Some(p.receivedAt))
  {
    assert SavedOk(w, worker);
  }

  /** A heartbeat is recorded exactly when the row is ONLINE and Redis takes the call. */
  lemma HeartbeatIsRecordedOnline(w: World, took: bool)
    ensures
      Next(w, Heartbeat(took)) ==
      w.(live := if took && w.row.state.connection == Online then Some(w.now) else w.live)
  {
  }

  // ---------------------------------------------------------------- cache and row

  /** The cache shows a state that was committed, with the sequence it was committed at, never ahead of the row. */
  lemma CacheNeverLeadsRow(ws: seq<World>, ss: seq<Step>, i: nat)
    requires Run(ws, ss) && i < |ws| && ws[i].cache.Some?
    ensures
      var cached, row := ws[i].cache.value, ws[i].row.state;
      && cached.sequence.Some? && row.sequence.Some? && cached.sequence.value <= row.sequence.value
      && cached.sequence.value in ws[i].committed && ws[i].committed[cached.sequence.value] == cached
      && (cached.sequence == row.sequence ==> cached == row)
  {
    RunKeepsInv(ws, ss, i);
  }

  /** What is committed at a sequence number is never rewritten. */
  lemma {:induction false} CommittedIsFixed(ws: seq<World>, ss: seq<Step>, i: nat, j: nat, n: nat)
    requires Run(ws, ss) && i <= j < |ws| && n in ws[i].committed
    ensures n in ws[j].committed && ws[j].committed[n] == ws[i].committed[n]
  {
    if i < j {
      CommittedIsFixed(ws, ss, i, j - 1, n);
      RunKeepsInv(ws, ss, j - 1);
    }
  }

  /** The cached sequence goes down only when the cache is lost. */
  lemma CachedSequenceOnlyRises(w: World, s: Step)
    requires Inv(w) && Enabled(w, s) && w.cache.Some?
    ensures
      var w' := Next(w, s);
      || (s.LoseCache? && w'.cache.None?)
      || (w'.cache.Some? && w'.cache.value.sequence.Some? &&
          w.cache.value.sequence.value <= w'.cache.value.sequence.value)
  {
  }

  /**
   The sequence guard of the script never rejects the event that is current under
   the row lock: if Redis takes the call, cache and row agree afterwards.
   */
  lemma CurrentEventIsNeverRejected(w: World, worker: nat)
    requires Inv(w) && worker in w.workers && w.workers[worker].Saved?
    requires Current(w, w.workers[worker].event)
    ensures ScriptApplies(w.cache, w.workers[worker].event.sequence)
    ensures Next(w, UpdateCache(worker, true)).cache == Some(w.row.state)
  {
    assert SavedOk(w, worker);
  }

  // ---------------------------------------------------------------- freshness

  /** The live timestamp is written only while the row is ONLINE. */
  lemma LiveIsWrittenOnlyOnline(w: World, s: Step)
    requires Inv(w) && Enabled(w, s)
    requires Next(w, s).live != w.live && Next(w, s).live.Some?
    ensures w.row.state.connection == Online && Next(w, s).row == w.row
  {
    if s.UpdateCache? {
      assert SavedOk(w, s.worker);
    }
  }

  /** When the cache step of an OFFLINE event runs as current, the live key is gone exactly if the event changed
      the connection or the key was gone before. */
  lemma OfflineStepClearsLive(w: World, worker: nat)
    requires Inv(w) && worker in w.workers && w.workers[worker].Saved?
    requires Current(w, w.workers[worker].event) && w.workers[worker].state.connection == Offline
    ensures
      Next(w, UpdateCache(worker, true)).live.None? <==> w.workers[worker].changed || w.live.None?
  {
    CurrentEventIsNeverRejected(w, worker);
  }

  /** An absent live key stays absent as long as the row is not ONLINE. */
  lemma {:induction false} LiveStaysAbsent(ws: seq<World>, ss: seq<Step>, i: nat, j: nat)
    requires Run(ws, ss) && i <= j < |ws| && ws[i].live.None?
    requires forall k :: i <= k < j ==> ws[k].row.state.connection != Online
    ensures ws[j].live.None?
  {
    hide Next;
    hide Enabled;
    if i < j {
      LiveStaysAbsent(ws, ss, i, j - 1);
      RunKeepsInv(ws, ss, j - 1);
      if ws[j].live.Some? {
        LiveIsWrittenOnlyOnline(ws[j - 1], ss[j - 1]);
      }
    }
  }

  /**
   Once the cache step of an OFFLINE event has run as current, and the event changed
   the connection or there was no live key, the live key stays absent until a later
   commit makes the row ONLINE again.
   */
  lemma OfflineRobotStaysStale(ws: seq<World>, ss: seq<Step>, i: nat, j: nat)
    requires Run(ws, ss) && i < j < |ws|
    requires ss[i].UpdateCache? && ss[i].took
    requires
      var p := ws[i].workers[ss[i].worker];
      Current(ws[i], p.event) && p.state.connection == Offline && (p.changed || ws[i].live.None?)
    requires forall k :: i < k < j ==> ws[k].row.state.connection != Online
    ensures ws[j].live.None?
  {
    RunKeepsInv(ws, ss, i);
    OfflineStepClearsLive(ws[i], ss[i].worker);
    LiveStaysAbsent(ws, ss, i + 1, j);
  }

  /** From state `i` on the live key is absent for as long as the row does not come back ONLINE. */
  ghost predicate StaysStale(ws: seq<World>, i: nat) {
    forall j :: i <= j < |ws| && (forall k :: i <= k < j ==> ws[k].row.state.connection != Online) ==> ws[j].live.None?
  }

  /** And exactly then: without a change, a live key that was there survives the step. */
  lemma OfflineStepStaysStaleExactly(ws: seq<World>, ss: seq<Step>, i: nat)
    requires Run(ws, ss) && i < |ss| && ss[i].UpdateCache? && ss[i].took
    requires
      var p := ws[i].workers[ss[i].worker];
      Current(ws[i], p.event) && p.state.connection == Offline
    ensures StaysStale(ws, i + 1) <==> ws[i].workers[ss[i].worker].changed || ws[i].live.None?
  {
    RunKeepsInv(ws, ss, i);
    OfflineStepClearsLive(ws[i], ss[i].worker);
    hide Next;
    hide Inv;
    if ws[i + 1].live.None? {
      forall j | i + 1 <= j < |ws| && (forall k :: i + 1 <= k < j ==> ws[k].row.state.connection != Online)
        ensures ws[j].live.None?
      {
        LiveStaysAbsent(ws, ss, i + 1, j);
      }
    } else {
      assert !StaysStale(ws, i + 1);
    }
  }

  /** A heartbeat, an OFFLINE event and a second OFFLINE event whose cache step comes last. */
  function OvertakenSteps(): seq<Step> {
    var e2, e3 := OfflineEvent(2), OfflineEvent(3);
    [Heartbeat(true), Receive(2, e2), Receive(3, e3), Commit(2, true), Commit(3, true),
     UpdateCache(2, true), UpdateCache(3, true)]
  }

  function OfflineEvent(n: nat): Event {
    Event(n, Connectivity, n, None, Some(Offline), None)
  }

  function OvertakenWorlds(): seq<World> {
    var s1 := State(None, Online, Idle, Some(1), Some(1));
    var e2, e3 := OfflineEvent(2), OfflineEvent(3);
    var s2 := State(None, Offline, Idle, Some(2), Some(2));
    var s3 := State(None, Offline, Idle, Some(3), Some(3));
    var w0 := World(0, Row(s1, Some(0)), None, None, map[], map[1 := s1]);
    var w1 := w0.(live := Some(0));
    var w2 := w1.(workers := map[2 := Received(e2, 0)]);
    var w3 := w2.(workers := map[2 := Received(e2, 0), 3 := Received(e3, 0)]);
    var w4 := w3.(row := Row(s2, Some(0)), committed := map[1 := s1, 2 := s2],
                  workers := map[2 := Saved(e2, s2, true, 0), 3 := Received(e3, 0)]);
    var w5 := w4.(row := Row(s3, Some(0)), committed := map[1 := s1, 2 := s2, 3 := s3],
                  workers := map[2 := Saved(e2, s2, true, 0), 3 := Saved(e3, s3, false, 0)]);
    var w6 := w5.(workers := map[2 := Done, 3 := Saved(e3, s3, false, 0)]);
    var w7 := w6.(workers := map[2 := Done, 3 := Done], cache := Some(s3));
    [w0, w1, w2, w3, w4, w5, w6, w7]
  }

  lemma OvertakenStep(i: nat)
    requires i < 7
    ensures
      var ws, ss := OvertakenWorlds(), OvertakenSteps();
      Enabled(ws[i], ss[i]) && ws[i + 1] == Next(ws[i], ss[i])
  {
    if i == 0 {
    } else if i == 1 {
    } else if i == 2 {
    } else if i == 3 {
    } else if i == 4 {
    } else if i == 5 {
    } else {
    }
  }

  /**
   The change flag is needed: an OFFLINE event that overtakes the transition's own
   cache step leaves a fresh heartbeat behind, although it ran as current.
   */
  lemma OvertakenTransitionLeavesHeartbeat()
    ensures
      var ws, ss := OvertakenWorlds(), OvertakenSteps();
      && Run(ws, ss)
      && ws[7].row.state.connection == Offline && ws[7].cache == Some(ws[7].row.state) && ws[7].live.Some?
      && forall p :: p in ws[7].workers ==> ws[7].workers[p].Done?
  {
    hide Next;
    hide Enabled;
    var ws, ss := OvertakenWorlds(), OvertakenSteps();
    forall i | 0 <= i < |ss| ensures Enabled(ws[i], ss[i]) && ws[i + 1] == Next(ws[i], ss[i]) {
      OvertakenStep(i);
    }
  }
}
