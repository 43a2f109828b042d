/** Status events of one robot: which are accepted, what they save, and what the cache script does. */
module RobotStatus {
  import opened Options
  import IsoTime

  type Time = int
  type MessageId = nat

  datatype Connection = Online | Stale | Offline
  datatype Operation = Idle | Executing | Charging
  datatype Kind = Connectivity | Operational

  /** The status part of a robot row, as it is also cached. */
  datatype State = State(
    ip: Option<string>, connection: Connection, operation: Operation,
    sequence: Option<nat>, message: Option<MessageId>)

  datatype Row = Row(state: State, lastSeen: Option<Time>)

  datatype Event = Event(
    message: MessageId, kind: Kind, sequence: nat,
    ip: Option<string>, connection: Option<Connection>, operation: Option<Operation>)

  predicate DuplicateOrOld(s: State, e: Event) {
    s.message == Some(e.message) || (s.sequence.Some? && e.sequence <= s.sequence.value)
  }

  predicate Accepts(s: State, e: Event) {
    && !DuplicateOrOld(s, e)
    && (e.kind == Operational ==> s.connection == Online && (e.connection.Some? ==> e.connection.value == s.connection))
  }

  function NewState(s: State, e: Event): State {
    State(
      if e.ip.Some? then e.ip else s.ip,
      if e.connection.Some? then e.connection.value else s.connection,
      if e.operation.Some? then e.operation.value else s.operation,
      Some(e.sequence), Some(e.message))
  }

  /** `heartbeat` is the live timestamp that could be read from Redis, if any. */
  function OfflineLastSeen(saved: Option<Time>, heartbeat: Option<Time>): Option<Time> {
    if heartbeat.Some? && (saved.None? || heartbeat.value > saved.value) then heartbeat else saved
  }

  function LastSeenFor(
    saved: Option<Time>, connection: Connection, changed: bool, receivedAt: Time, heartbeat: Option<Time>): Option<Time>
  {
    if !changed then saved
    else if connection == Online then Some(receivedAt)
    else if connection == Offline then OfflineLastSeen(saved, heartbeat)
    else saved
  }

  /** What the first transaction leaves in the row. */
  function Save(row: Row, e: Event, receivedAt: Time, heartbeat: Option<Time>): Row {
    if !Accepts(row.state, e) then row
    else
      var s := NewState(row.state, e);
      Row(s, LastSeenFor(row.lastSeen, s.connection, s.connection != row.state.connection, receivedAt, heartbeat))
  }

  /** Newer than the row, and not the message the row was saved with. */
  predicate Unseen(row: Row, e: Event) {
    && row.state.message != Some(e.message)
    && (row.state.sequence.None? || row.state.sequence.value < e.sequence)
  }

  /**
   Which events are saved, in terms of the event and the row alone: a connectivity
   event when it is unseen, an operational one when besides the robot is ONLINE and
   the event names no other connection.
   */
  lemma SavedExactlyWhen(row: Row, e: Event, receivedAt: Time, heartbeat: Option<Time>)
    ensures
      Save(row, e, receivedAt, heartbeat) != row <==>
      && Unseen(row, e)
      && (e.kind == Operational ==>
            row.state.connection == Online && (e.connection.None? || e.connection.value == Online))
  {
    assert Unseen(row, e) ==> NewState(row.state, e).message != row.state.message;
  }

  /** What a saved event leaves: its sequence and message, every fact it carries, and all other facts as they were. */
  lemma SavedFactByFact(row: Row, e: Event, receivedAt: Time, heartbeat: Option<Time>)
    ensures
      var row' := Save(row, e, receivedAt, heartbeat);
      var s, s' := row.state, row'.state;
      row' != row ==>
        && s'.sequence == Some(e.sequence) && s'.message == Some(e.message)
        && (match e.ip case Some(ip) => s'.ip == Some(ip) case None => s'.ip == s.ip)
        && (match e.operation case Some(o) => s'.operation == o case None => s'.operation == s.operation)
        && (match e.connection case Some(c) => s'.connection == c case None => s'.connection == s.connection)
  {
  }

  /** And its last-seen time, case by case. */
  lemma LastSeenCaseByCase(row: Row, e: Event, receivedAt: Time, heartbeat: Option<Time>)
    ensures
      var row' := Save(row, e, receivedAt, heartbeat);
      row' != row ==>
        var c, c' := row.state.connection, row'.state.connection;
        && (c' == c || c' == Stale ==> row'.lastSeen == row.lastSeen)
        && (c' != c && c' == Online ==> row'.lastSeen == Some(receivedAt))
        && (c' != c && c' == Offline ==>
              row'.lastSeen ==
              if heartbeat.None? then row.lastSeen
              else if row.lastSeen.None? || row.lastSeen.value < heartbeat.value then heartbeat else row.lastSeen)
  {
  }

  /** Accepted events strictly raise the sequence; operational ones need an ONLINE robot and keep it so. */
  lemma AcceptanceIsOrdered(row: Row, e: Event, receivedAt: Time, heartbeat: Option<Time>)
    ensures
      var row' := Save(row, e, receivedAt, heartbeat);
      && (row' != row ==>
            && row'.state.sequence == Some(e.sequence)
            && (row.state.sequence.Some? ==> row.state.sequence.value < e.sequence)
            && (e.kind == Operational ==> row.state.connection == Online && row'.state.connection == Online))
      && (row.state.sequence.Some? ==>
            row'.state.sequence.Some? && row.state.sequence.value <= row'.state.sequence.value)
  {
  }

  /** Going offline never moves the durable last-seen time backwards, and takes the latest readable heartbeat. */
  lemma OfflineSnapshotNeverGoesBack(row: Row, e: Event, receivedAt: Time, heartbeat: Option<Time>)
    requires NewState(row.state, e).connection == Offline
    ensures
      var row' := Save(row, e, receivedAt, heartbeat);
      && (row.lastSeen.Some? ==> row'.lastSeen.Some? && row.lastSeen.value <= row'.lastSeen.value)
      && (row'.state.connection != row.state.connection && heartbeat.Some? ==>
            row'.lastSeen.Some? && heartbeat.value <= row'.lastSeen.value)
      && (row'.lastSeen == row.lastSeen || row'.lastSeen == heartbeat)
  {
  }

  /** The durable last-seen time changes only with the connection: to the receipt time, or to the heartbeat. */
  lemma LastSeenMovesOnTransitions(row: Row, e: Event, receivedAt: Time, heartbeat: Option<Time>)
    ensures
      var row' := Save(row, e, receivedAt, heartbeat);
      && (row'.lastSeen != row.lastSeen ==>
            && row'.state.connection != row.state.connection && row'.state.sequence == Some(e.sequence)
            && if row'.state.connection == Online then row'.lastSeen == Some(receivedAt)
               else row'.state.connection == Offline && row'.lastSeen == heartbeat)
      && (row'.state.connection == Online != row.state.connection ==> row'.lastSeen == Some(receivedAt))
  {
  }

  // ---------------------------------------------------------------- deliveries in any order

  datatype Delivery = Delivery(event: Event, receivedAt: Time, heartbeat: Option<Time>)

  function Deliver(row: Row, ds: seq<Delivery>): Row {
    if ds == [] then row
    else
      var last := ds[|ds| - 1];
      Save(Deliver(row, ds[..|ds| - 1]), last.event, last.receivedAt, last.heartbeat)
  }

  /** Sequence numbers and message ids name each other. */
  ghost predicate Named(row: Row, ds: seq<Delivery>) {
    && (forall d, d' ::
            d in ds && d' in ds && (d.event.sequence == d'.event.sequence || d.event.message == d'.event.message) ==>
            d.event == d'.event)
    && (forall d :: d in ds && row.state.message == Some(d.event.message) ==>
          row.state.sequence.Some? && d.event.sequence <= row.state.sequence.value)
  }

  /** Connectivity events, named in this way. */
  ghost predicate Coherent(row: Row, ds: seq<Delivery>) {
    Named(row, ds) && forall d :: d in ds ==> d.event.kind == Connectivity && d.event.connection.Some?
  }

  /** Each operational event is delivered while the robot is ONLINE, and names no other connection. */
  ghost predicate DeliveredOnline(row: Row, ds: seq<Delivery>) {
    forall n :: 0 <= n < |ds| && ds[n].event.kind == Operational ==>
      && Deliver(row, ds[..n]).state.connection == Online
      && (ds[n].event.connection.Some? ==> ds[n].event.connection.value == Online)
  }

  predicate Newer(row: Row, e: Event) {
    row.state.sequence.Some? ==> row.state.sequence.value < e.sequence
  }

  ghost predicate Delivers(ds: seq<Delivery>, e: Event) {
    exists d :: d in ds && d.event == e
  }

  /** The row shows event `e`, which is newer than where the row started and the highest delivered. */
  ghost predicate Shows(row0: Row, row: Row, ds: seq<Delivery>, e: Event) {
    && Newer(row0, e)
    && row.state.sequence == Some(e.sequence) && row.state.message == Some(e.message)
    && (e.connection.Some? ==> row.state.connection == e.connection.value)
    && (e.kind == Operational ==> row.state.connection == Online)
    && (e.ip.Some? ==> row.state.ip == e.ip)
    && (e.operation.Some? ==> row.state.operation == e.operation.value)
    && (forall d :: d in ds ==> d.event.sequence <= e.sequence)
  }

  lemma StillHighest(row0: Row, row: Row, before: seq<Delivery>, last: Delivery, e: Event)
    requires Shows(row0, row, before, e)
    requires last.event.kind == Operational ==>
      row.state.connection == Online && (last.event.connection.Some? ==> last.event.connection.value == Online)
    requires last.event.sequence == e.sequence || last.event.message == e.message ==> last.event == e
    ensures
      Shows(
        row0, Save(row, last.event, last.receivedAt, last.heartbeat), before + [last],
        if e.sequence < last.event.sequence then last.event else e)
  {
  }

  /**
   Last writer wins, whatever the order and the duplication of the deliveries: with
   connectivity and operational events mixed, as long as the latter come while ONLINE.
   */
  lemma {:induction false} HighestWinsInMixedStreams(row: Row, ds: seq<Delivery>)
    requires Named(row, ds) && DeliveredOnline(row, ds)
    ensures
      || (Deliver(row, ds) == row && forall d :: d in ds ==> !Newer(row, d.event))
      || (exists e :: Delivers(ds, e) && Shows(row, Deliver(row, ds), ds, e))
  {
    if ds != [] {
      var before, last := ds[..|ds| - 1], ds[|ds| - 1];
      assert ds == before + [last];
      PrefixIsDeliveredOnline(row, ds);
      HighestWinsInMixedStreams(row, before);
      assert Deliver(row, before + [last]) == Save(Deliver(row, before), last.event, last.receivedAt, last.heartbeat);
      var r := Deliver(row, before);
      hide Deliver;
      if r == row && forall d :: d in before ==> !Newer(row, d.event) {
        FirstNewerIsShown(row, before, last);
      } else {
        var e :| Delivers(before, e) && Shows(row, r, before, e);
        HighestStaysShown(row, r, before, last, e);
      }
    }
  }

  /** Up to here everything was old. */
  lemma FirstNewerIsShown(row: Row, before: seq<Delivery>, last: Delivery)
    requires Named(row, before + [last]) && forall d :: d in before ==> !Newer(row, d.event)
    requires last.event.kind == Operational ==>
      row.state.connection == Online && (last.event.connection.Some? ==> last.event.connection.value == Online)
    ensures
      var r, ds := Save(row, last.event, last.receivedAt, last.heartbeat), before + [last];
      if Newer(row, last.event) then Delivers(ds, last.event) && Shows(row, r, ds, last.event)
      else r == row && forall d :: d in ds ==> !Newer(row, d.event)
  {
    assert last in before + [last];
  }

  /** One event was the highest so far: it stays that, or the last one takes its place. */
  lemma HighestStaysShown(row: Row, r: Row, before: seq<Delivery>, last: Delivery, e: Event)
    requires Named(row, before + [last]) && Delivers(before, e) && Shows(row, r, before, e)
    requires last.event.kind == Operational ==>
      r.state.connection == Online && (last.event.connection.Some? ==> last.event.connection.value == Online)
    ensures
      var ds, h := before + [last], if e.sequence < last.event.sequence then last.event else e;
      Delivers(ds, h) && Shows(row, Save(r, last.event, last.receivedAt, last.heartbeat), ds, h)
  {
    var ds := before + [last];
    var d :| d in before && d.event == e;
    assert d in ds && last in ds;
    StillHighest(row, r, before, last, e);
  }

  lemma PrefixIsDeliveredOnline(row: Row, ds: seq<Delivery>)
    requires ds != [] && DeliveredOnline(row, ds)
    ensures DeliveredOnline(row, ds[..|ds| - 1])
  {
    forall n | 0 <= n < |ds| - 1 && ds[n].event.kind == Operational
      ensures
        && Deliver(row, ds[..|ds| - 1][..n]).state.connection == Online
        && (ds[n].event.connection.Some? ==> ds[n].event.connection.value == Online)
    {
      assert ds[..|ds| - 1][..n] == ds[..n];
    }
  }

  /** A robot that is ONLINE and is told of no other connection gets all its events while ONLINE. */
  lemma {:induction false} OnlineStreamsAreDeliveredOnline(row: Row, ds: seq<Delivery>)
    requires row.state.connection == Online
    requires forall d :: d in ds && d.event.connection.Some? ==> d.event.connection.value == Online
    ensures DeliveredOnline(row, ds) && Deliver(row, ds).state.connection == Online
  {
    if ds != [] {
      var before, last := ds[..|ds| - 1], ds[|ds| - 1];
      assert ds == before + [last];
      OnlineStreamsAreDeliveredOnline(row, before);
      forall n | 0 <= n < |ds| && ds[n].event.kind == Operational
        ensures
          && Deliver(row, ds[..n]).state.connection == Online
          && (ds[n].event.connection.Some? ==> ds[n].event.connection.value == Online)
      {
        assert ds[n] in ds;
        if n < |before| {
          assert before[n] == ds[n] && before[..n] == ds[..n];
        }
      }
    }
  }

  /** The same for connectivity events alone, without a condition on the robot. */
  lemma HighestSequenceWins(row: Row, ds: seq<Delivery>)
    requires Coherent(row, ds)
    ensures
      || (Deliver(row, ds) == row && forall d :: d in ds ==> !Newer(row, d.event))
      || (exists e :: Delivers(ds, e) && Shows(row, Deliver(row, ds), ds, e))
  {
    assert forall n :: 0 <= n < |ds| ==> ds[n] in ds;
    HighestWinsInMixedStreams(row, ds);
  }

  /** Two delivery orders of the same events agree on sequence, message and connection status. */
  lemma DeliveryOrderDoesNotMatter(row: Row, ds: seq<Delivery>, ds': seq<Delivery>)
    requires Coherent(row, ds) && Coherent(row, ds')
    requires forall e :: Delivers(ds, e) <==> Delivers(ds', e)
    ensures
      var s, s' := Deliver(row, ds).state, Deliver(row, ds').state;
      s.sequence == s'.sequence && s.message == s'.message && s.connection == s'.connection
  {
    hide Deliver;
    HighestSequenceWins(row, ds);
    HighestSequenceWins(row, ds');
    if e :| Delivers(ds, e) && Shows(row, Deliver(row, ds), ds, e) {
      var d :| d in ds' && d.event == e;
      assert e.connection.Some?;
      assert Newer(row, d.event);
      var e' :| Delivers(ds', e') && Shows(row, Deliver(row, ds'), ds', e');
      var d' :| d' in ds && d'.event == e';
      assert e.sequence == e'.sequence;
      assert d.event == e;
    } else {
      assert forall e' :: Delivers(ds', e') ==> !Newer(row, e');
    }
  }

  // ---------------------------------------------------------------- facts that converge, and facts that do not

  /** The two parts of the state that an event may leave out. */
  datatype Field = OperationField | AddressField

  datatype Fact = OperationFact(operation: Operation) | AddressFact(ip: Option<string>)

  function Shown(f: Field, s: State): Fact {
    match f
    case OperationField => OperationFact(s.operation)
    case AddressField => AddressFact(s.ip)
  }

  function Carried(f: Field, e: Event): Option<Fact> {
    match f
    case OperationField => if e.operation.Some? then Some(OperationFact(e.operation.value)) else None
    case AddressField => if e.ip.Some? then Some(AddressFact(e.ip)) else None
  }

  ghost predicate SameEvents(ds: seq<Delivery>, ds': seq<Delivery>) {
    forall e :: Delivers(ds, e) <==> Delivers(ds', e)
  }

  /** Every delivery sequence of the same events leaves the same fact. */
  ghost predicate Converges(row: Row, ds: seq<Delivery>, f: Field) {
    forall ds' :: SameEvents(ds, ds') ==> Shown(f, Deliver(row, ds').state) == Shown(f, Deliver(row, ds).state)
  }

  /** Delivered, newer than the row, and the highest of all. */
  ghost predicate Highest(row: Row, ds: seq<Delivery>, h: Event) {
    Delivers(ds, h) && Newer(row, h) && forall d :: d in ds ==> d.event.sequence <= h.sequence
  }

  /** The highest newer event carries the fact, or no newer event carries another one than the row shows. */
  ghost predicate Settled(row: Row, ds: seq<Delivery>, f: Field) {
    || (exists h :: Highest(row, ds, h) && Carried(f, h).Some?)
    || (forall d :: d in ds && Newer(row, d.event) && Carried(f, d.event).Some? ==>
          Carried(f, d.event).value == Shown(f, row.state))
  }

  lemma {:induction false} SequenceOnlyRises(row: Row, ds: seq<Delivery>)
    ensures
      row.state.sequence.Some? ==>
        Deliver(row, ds).state.sequence.Some? && row.state.sequence.value <= Deliver(row, ds).state.sequence.value
  {
    if ds != [] {
      SequenceOnlyRises(row, ds[..|ds| - 1]);
    }
  }

  lemma {:induction false} FactStays(row: Row, ds: seq<Delivery>, f: Field)
    requires
      forall d :: d in ds && Newer(row, d.event) && Carried(f, d.event).Some? ==>
        Carried(f, d.event).value == Shown(f, row.state)
    ensures Shown(f, Deliver(row, ds).state) == Shown(f, row.state)
  {
    if ds != [] {
      var before, last := ds[..|ds| - 1], ds[|ds| - 1];
      FactStays(row, before, f);
      SequenceOnlyRises(row, before);
      assert last in ds;
    }
  }

  lemma {:induction false} DeliveredInParts(row: Row, a: seq<Delivery>, b: seq<Delivery>)
    ensures Deliver(row, a + b) == Deliver(Deliver(row, a), b)
  {
    if b == [] {
      assert a + b == a;
    } else {
      assert (a + b)[..|a + b| - 1] == a + b[..|b| - 1];
      DeliveredInParts(row, a, b[..|b| - 1]);
    }
  }

  /** After the highest event everything else is old. */
  lemma {:induction false} NothingAfterTheHighest(row: Row, ds: seq<Delivery>, h: Event)
    requires row.state.sequence == Some(h.sequence) && forall d :: d in ds ==> d.event.sequence <= h.sequence
    ensures Deliver(row, ds) == row
  {
    if ds != [] {
      NothingAfterTheHighest(row, ds[..|ds| - 1], h);
      assert ds[|ds| - 1] in ds;
    }
  }

  /** Whatever came before it, the highest event leaves the fact it carries. */
  lemma HighestFactWins(row: Row, ds: seq<Delivery>, f: Field, h: Event)
    requires Coherent(row, ds) && Highest(row, ds, h) && Carried(f, h).Some?
    ensures Shown(f, Deliver(row, ds).state) == Carried(f, h).value
  {
    HighestSequenceWins(row, ds);
    var d :| d in ds && d.event == h;
    var e :| Delivers(ds, e) && Shows(row, Deliver(row, ds), ds, e);
    var d' :| d' in ds && d'.event == e;
    assert e.sequence == h.sequence;
    hide Deliver;
  }

  lemma SameEventsAreCoherent(row: Row, ds: seq<Delivery>, ds': seq<Delivery>)
    requires Coherent(row, ds) && SameEvents(ds, ds')
    ensures Coherent(row, ds')
    ensures forall d' :: d' in ds' ==> exists d :: d in ds && d.event == d'.event
  {
    forall d' | d' in ds' ensures exists d :: d in ds && d.event == d'.event {
      assert Delivers(ds', d'.event);
    }
  }

  lemma SettledConverges(row: Row, ds: seq<Delivery>, ds': seq<Delivery>, f: Field)
    requires Coherent(row, ds) && SameEvents(ds, ds') && Settled(row, ds, f)
    ensures Shown(f, Deliver(row, ds').state) == Shown(f, Deliver(row, ds).state)
  {
    SameEventsAreCoherent(row, ds, ds');
    hide Deliver;
    if h :| Highest(row, ds, h) && Carried(f, h).Some? {
      HighestFactWins(row, ds, f, h);
      HighestFactWins(row, ds', f, h);
    } else {
      FactStays(row, ds, f);
      FactStays(row, ds', f);
    }
  }

  /** Two orders of the same events that leave different facts: the highest event first, or event `d` before it. */
  lemma UnsettledDiverges(row: Row, ds: seq<Delivery>, f: Field, d: Delivery, h: Delivery)
    requires Coherent(row, ds) && d in ds && h in ds && Highest(row, ds, h.event) && Carried(f, h.event).None?
    requires Newer(row, d.event) && Carried(f, d.event).Some? && Carried(f, d.event).value != Shown(f, row.state)
    ensures SameEvents(ds, [h] + ds) && SameEvents(ds, [d, h] + ds)
    ensures Shown(f, Deliver(row, [h] + ds).state) != Shown(f, Deliver(row, [d, h] + ds).state)
  {
    AlreadyDelivered(ds, [h]);
    AlreadyDelivered(ds, [d, h]);
    DeliveredInParts(row, [h], ds);
    DeliveredInParts(row, [d, h], ds);
    DeliveredInParts(row, [d], [h]);
    assert [d] + [h] == [d, h];
    FirstIsAccepted(row, d);
    FirstIsAccepted(row, h);
    var row' := Save(row, d.event, d.receivedAt, d.heartbeat);
    assert row'.state.message != Some(h.event.message);
    FirstIsAccepted(row', h);
    NothingAfterTheHighest(Deliver(row, [h]), ds, h.event);
    NothingAfterTheHighest(Deliver(row', [h]), ds, h.event);
  }

  lemma FirstIsAccepted(row: Row, d: Delivery)
    requires Newer(row, d.event) && row.state.message != Some(d.event.message) && d.event.kind == Connectivity
    ensures Deliver(row, [d]) == Save(row, d.event, d.receivedAt, d.heartbeat)
    ensures Deliver(row, [d]).state == NewState(row.state, d.event)
  {
    assert [d][..0] == [];
  }

  lemma AlreadyDelivered(ds: seq<Delivery>, again: seq<Delivery>)
    requires forall d :: d in again ==> d in ds
    ensures SameEvents(ds, again + ds)
  {
    forall e ensures Delivers(ds, e) <==> Delivers(again + ds, e) {
      if Delivers(ds, e) {
        var d :| d in ds && d.event == e;
        assert d in again + ds;
      }
    }
  }

  lemma HighestExists(row: Row, ds: seq<Delivery>, d: Delivery)
    requires Coherent(row, ds) && d in ds && Newer(row, d.event)
    ensures exists h :: Highest(row, ds, h)
  {
    HighestSequenceWins(row, ds);
    hide Deliver;
    var e :| Delivers(ds, e) && Shows(row, Deliver(row, ds), ds, e);
    assert Highest(row, ds, e);
  }

  lemma UnsettledWitnesses(row: Row, ds: seq<Delivery>, f: Field) returns (d: Delivery, h: Delivery)
    requires Coherent(row, ds) && !Settled(row, ds, f)
    ensures d in ds && h in ds && Highest(row, ds, h.event) && Carried(f, h.event).None?
    ensures Newer(row, d.event) && Carried(f, d.event).Some? && Carried(f, d.event).value != Shown(f, row.state)
  {
    d :| d in ds && Newer(row, d.event) && Carried(f, d.event).Some?
      && Carried(f, d.event).value != Shown(f, row.state);
    HighestExists(row, ds, d);
    var e :| Highest(row, ds, e);
    h :| h in ds && h.event == e;
  }

  lemma TwoFactsRefute(row: Row, ds: seq<Delivery>, f: Field, a: seq<Delivery>, b: seq<Delivery>)
    requires SameEvents(ds, a) && SameEvents(ds, b)
    requires Shown(f, Deliver(row, a).state) != Shown(f, Deliver(row, b).state)
    ensures !Converges(row, ds, f)
  {
    hide Deliver;
    hide SameEvents;
    hide Shown;
  }

  lemma UnsettledDoesNotConverge(row: Row, ds: seq<Delivery>, f: Field)
    requires Coherent(row, ds) && !Settled(row, ds, f)
    ensures !Converges(row, ds, f)
  {
    hide Deliver;
    hide SameEvents;
    hide Shown;
    hide Carried;
    hide Coherent;
    hide Settled;
    hide Converges;
    hide Highest;
    var d, h := UnsettledWitnesses(row, ds, f);
    UnsettledDiverges(row, ds, f, d, h);
    TwoFactsRefute(row, ds, f, [h] + ds, [d, h] + ds);
  }

  /**
   Exactly when the operational status or the address converges: the highest newer
   event carries it, or no newer event carries anything but what the row shows.
   */
  lemma ConvergesExactlyWhenSettled(row: Row, ds: seq<Delivery>, f: Field)
    requires Coherent(row, ds)
    ensures Converges(row, ds, f) <==> Settled(row, ds, f)
  {
    hide Deliver;
    hide Settled;
    hide Coherent;
    if Settled(row, ds, f) {
      forall ds' | SameEvents(ds, ds')
        ensures Shown(f, Deliver(row, ds').state) == Shown(f, Deliver(row, ds).state)
      {
        SettledConverges(row, ds, ds', f);
      }
    } else {
      UnsettledDoesNotConverge(row, ds, f);
    }
  }

  /** With no newer event every delivery sequence leaves the row as it was. */
  lemma OldEventsChangeNothing(row: Row, ds: seq<Delivery>)
    requires Coherent(row, ds) && forall d :: d in ds ==> !Newer(row, d.event)
    ensures Deliver(row, ds) == row
  {
    HighestSequenceWins(row, ds);
  }

  /** A robot that came ONLINE charging, and a later event that says nothing of the operational status. */
  const OfflineRow := Row(State(None, Offline, Idle, None, None), None)
  const Charges := Delivery(Event(1, Connectivity, 1, None, Some(Online), Some(Charging)), 0, None)
  const SaysNothing := Delivery(Event(2, Connectivity, 2, None, Some(Online), None), 0, None)

  /** An input that is not settled: the operational status is carried only by the event that may be overtaken. */
  lemma OperationDependsOnOrder()
    ensures Deliver(OfflineRow, [Charges, SaysNothing]).state.operation == Charging
    ensures Deliver(OfflineRow, [SaysNothing, Charges]).state.operation == Idle
  {
    FirstIsAccepted(OfflineRow, Charges);
    FirstIsAccepted(OfflineRow, SaysNothing);
    assert [Charges, SaysNothing][..1] == [Charges] && [SaysNothing, Charges][..1] == [SaysNothing];
  }

  lemma OperationIsUnsettled()
    ensures Coherent(OfflineRow, [Charges, SaysNothing])
    ensures !Settled(OfflineRow, [Charges, SaysNothing], OperationField)
  {
    var ds := [Charges, SaysNothing];
    assert Charges in ds && SaysNothing in ds;
    forall h | Highest(OfflineRow, ds, h) ensures Carried(OperationField, h).None? {
      var d :| d in ds && d.event == h;
    }
  }

  // ---------------------------------------------------------------- the cache script

  /** The Lua guard: a readable cached sequence that is not older rejects the write. */
  predicate ScriptApplies(cached: Option<State>, sequence: nat) {
    cached.Some? && cached.value.sequence.Some? ==> cached.value.sequence.value < sequence
  }

  function LiveAfter(live: Option<Time>, connection: Connection, changed: bool, receivedAt: Time): Option<Time> {
    if changed && connection == Offline then None
    else if changed && connection == Online && (live.None? || live.value < receivedAt) then Some(receivedAt)
    else live
  }

  /** The two Redis keys of a robot's live status; timestamps are kept as ISO texts. */
  class RobotStatusCache {
    var cached: Option<State>
    var lastSeen: Option<string>
    ghost var heard: Option<IsoTime.Instant>

    /** The stored text is the ISO form of the instant in `heard`. */
    ghost predicate Valid()
      reads this
    {
      match heard
      case None => lastSeen.None?
      case Some(t) => IsoTime.Valid(t) && lastSeen == Some(IsoTime.IsoFormat(t))
    }

    ghost function Live(): Option<Time>
      reads this
      requires Valid()
    {
      if heard.None? then None else Some(IsoTime.Micros(heard.value))
    }

    constructor ()
      ensures Valid() && cached.None? && Live().None?
    {
      cached, lastSeen, heard := None, None, None;
    }

    /** Comparing the texts has the effect of comparing the times. */
    method UpdateStatusCache(
      sequence: nat, state: State, connection: Connection, changed: bool, receivedAt: IsoTime.Instant)
      returns (applied: bool)
      requires Valid() && IsoTime.Valid(receivedAt)
      modifies this
      ensures Valid()
      ensures applied <==> ScriptApplies(old(cached), sequence)
      ensures
        applied <==>
        old(cached).None? || old(cached).value.sequence.None? || old(cached).value.sequence.value < sequence
      ensures cached == if applied then Some(state) else old(cached)
      ensures
        Live() ==
        if applied then LiveAfter(old(Live()), connection, changed, IsoTime.Micros(receivedAt)) else old(Live())
      ensures !applied || !changed || connection == Stale ==> Live() == old(Live())
      ensures applied && changed && connection == Offline ==> Live().None?
      ensures
        applied && changed && connection == Online ==>
          Live() ==
          if old(Live()).Some? && old(Live()).value >= IsoTime.Micros(receivedAt) then old(Live())
          else Some(IsoTime.Micros(receivedAt))
    {
      if cached.Some? && cached.value.sequence.Some? && cached.value.sequence.value >= sequence {
        return false;
      }
      cached := Some(state);
      if changed {
        if connection == Offline {
          lastSeen, heard := None, None;
        } else if connection == Online {
          var text := IsoTime.IsoFormat(receivedAt);
          if heard.Some? {
            IsoTime.IsoOrderIsTimeOrder(heard.value, receivedAt);
          }
          if lastSeen.None? || IsoTime.LexLess(lastSeen.value, text) {
            lastSeen, heard := Some(text), Some(receivedAt);
          }
        }
      }
      return true;
    }
  }
}
