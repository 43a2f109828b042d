/**
 At-least-once consumption with bounded retries.  A queue's messages, the copies
 made of them and every place a copy can be are one state; the steps are those of
 the broker and of the consumer, and any delivery can be interrupted at any point.
 */
module MessageQueue {
  import opened Options

  type Origin = nat
  type CopyId = nat

  /** Header names used here, told apart from the broker's own and the application's. */
  datatype HeaderName = RetryCount | OriginalKey | Cc | Bcc | OfBroker(name: string) | OfApplication(name: string)

  datatype Value = IntValue(i: int) | TextValue(s: string) | OtherValue(v: nat)

  type Headers = map<HeaderName, Value>

  /** A body either decodes to a JSON object or does not. */
  datatype Body = Json(payload: nat) | Malformed

  datatype Message = Message(
    body: Body, key: string, headers: Headers, id: Option<string>, correlation: Option<string>)

  /** What the handler is given. */
  datatype TopicMessage = TopicMessage(
    payload: nat, key: string, headers: Headers, id: Option<string>, correlation: Option<string>)

  /** One subscription: its queue, its retry limit and whether failures are retried at all. */
  datatype Policy = Policy(queue: string, limit: nat, requeue: bool)

  function CountOf(m: Message): Option<nat> {
    if RetryCount !in m.headers then Some(0)
    else if m.headers[RetryCount].IntValue? && m.headers[RetryCount].i >= 0 then Some(m.headers[RetryCount].i)
    else None
  }

  function KeyOf(m: Message): Option<string> {
    if OriginalKey !in m.headers then Some(m.key)
    else if m.headers[OriginalKey].TextValue? then Some(m.headers[OriginalKey].s)
    else None
  }

  predicate Readable(m: Message) {
    CountOf(m).Some? && KeyOf(m).Some? && m.body.Json?
  }

  function Decoded(m: Message): TopicMessage
    requires Readable(m)
  {
    TopicMessage(m.body.payload, KeyOf(m).value, m.headers, m.id, m.correlation)
  }

  /** The handler's failure is final for this copy. */
  predicate Exhausted(p: Policy, m: Message)
    requires Readable(m)
  {
    !p.requeue || CountOf(m).value >= p.limit
  }

  predicate HasId(m: Message) {
    m.id.Some? && m.id.value != ""
  }

  /** The copy published to the retry queue; `newId` is used when the message has no id. */
  function RetryCopy(p: Policy, m: Message, newId: string): Message
    requires Readable(m)
  {
    var kept := map h | h in m.headers && h != Cc && h != Bcc :: m.headers[h];
    Message(
      m.body, p.queue + ".retry",
      kept[RetryCount := IntValue(CountOf(m).value + 1)][OriginalKey := TextValue(KeyOf(m).value)],
      if HasId(m) then m.id else Some(newId), m.correlation)
  }

  predicate OnlyBrokerHeaders(headers: Headers) {
    forall h :: h in headers ==> h.OfBroker?
  }

  // ---------------------------------------------------------------- the state

  /** How far the consumer is with a delivery. */
  datatype Phase = Received | Succeeded | Refused | Failed | Published | Unpublished

  datatype Place = Source | Consumer(phase: Phase) | Retry | Dead

  datatype Copy = Copy(origin: Origin, msg: Message, place: Place)

  datatype Call = Call(origin: Origin, given: TopicMessage, ok: bool)

  /** `original` is every message ever routed to the queue; `done` are those a handler success acknowledged. */
  datatype State = State(
    original: map<Origin, Message>, copies: map<CopyId, Copy>, done: set<Origin>, calls: seq<Call>)

  datatype Event =
    | Arrive(origin: Origin, copy: CopyId, msg: Message)
    | Deliver(copy: CopyId)
    | Refuse(copy: CopyId)
    | Handle(copy: CopyId, ok: bool)
    | PublishRetry(copy: CopyId, made: CopyId, newId: string)
    | FailPublish(copy: CopyId, taken: Option<CopyId>, newId: string)
    | Settle(copy: CopyId)
    | Recover(copy: CopyId)
    | Expire(copy: CopyId, added: Headers)

  function Init(): State {
    State(map[], map[], {}, [])
  }

  predicate At(s: State, i: CopyId, place: Place) {
    i in s.copies && s.copies[i].place == place
  }

  predicate Enabled(s: State, e: Event) {
    match e
    case Arrive(o, i, m) => o !in s.original && i !in s.copies
    case Deliver(i) => At(s, i, Source)
    case Refuse(i) => At(s, i, Consumer(Received)) && !Readable(s.copies[i].msg)
    case Handle(i, ok) => At(s, i, Consumer(Received)) && Readable(s.copies[i].msg)
    case PublishRetry(i, j, newId) =>
      At(s, i, Consumer(Failed)) && j !in s.copies && Readable(s.copies[i].msg)
    case FailPublish(i, taken, newId) =>
      At(s, i, Consumer(Failed)) && (taken.Some? ==> taken.value !in s.copies) && Readable(s.copies[i].msg)
    case Settle(i) =>
      && i in s.copies && s.copies[i].place.Consumer?
      && s.copies[i].place.phase in {Succeeded, Refused, Published, Unpublished}
    case Recover(i) => i in s.copies && s.copies[i].place.Consumer?
    case Expire(i, added) => At(s, i, Retry) && OnlyBrokerHeaders(added)
  }

  function Move(s: State, i: CopyId, place: Place): State
    requires i in s.copies
  {
    s.(copies := s.copies[i := s.copies[i].(place := place)])
  }

  function WithRetry(p: Policy, s: State, i: CopyId, j: CopyId, newId: string): State
    requires i in s.copies && Readable(s.copies[i].msg)
  {
    s.(copies := s.copies[j := Copy(s.copies[i].origin, RetryCopy(p, s.copies[i].msg, newId), Retry)])
  }

  function Without(s: State, i: CopyId): State {
    s.(copies := s.copies - {i})
  }

  /**
   `Settle` is the ack, nack or reject that ends a delivery; `Recover` is the broker
   taking an unsettled delivery back when its channel closes; `Expire` is the retry
   queue's time-to-live returning a copy to the source under the queue's own name.
   */
  function Next(p: Policy, s: State, e: Event): State
    requires Enabled(s, e)
  {
    match e
    case Arrive(o, i, m) => s.(original := s.original[o := m], copies := s.copies[i := Copy(o, m, Source)])
    case Deliver(i) => Move(s, i, Consumer(Received))
    case Refuse(i) => Move(s, i, Consumer(Refused))
    case Handle(i, ok) =>
      var c := s.copies[i];
      var called := s.(calls := s.calls + [Call(c.origin, Decoded(c.msg), ok)]);
      Move(called, i, Consumer(if ok then Succeeded else if Exhausted(p, c.msg) then Refused else Failed))
    case PublishRetry(i, j, newId) => Move(WithRetry(p, s, i, j, newId), i, Consumer(Published))
    case FailPublish(i, taken, newId) =>
      Move(if taken.Some? then WithRetry(p, s, i, taken.value, newId) else s, i, Consumer(Unpublished))
    case Settle(i) =>
      (match s.copies[i].place.phase
       case Succeeded => Without(s, i).(done := s.done + {s.copies[i].origin})
       case Refused => Move(s, i, Dead)
       case Unpublished => Move(s, i, Source)
       case _ => Without(s, i))
    case Recover(i) => Move(s, i, Source)
    case Expire(i, added) =>
      var c := s.copies[i];
      s.(copies := s.copies[i := Copy(c.origin, c.msg.(key := p.queue, headers := c.msg.headers + added), Source)])
  }

  ghost predicate IsRun(p: Policy, s: State, es: seq<Event>)
    decreases |es|
  {
    es == [] || (Enabled(s, es[0]) && IsRun(p, Next(p, s, es[0]), es[1..]))
  }

  ghost function Run(p: Policy, s: State, es: seq<Event>): State
    requires IsRun(p, s, es)
    decreases |es|
  {
    if es == [] then s else Run(p, Next(p, s, es[0]), es[1..])
  }

  // ---------------------------------------------------------------- what a copy keeps of its message

  predicate SameApplicationHeaders(a: Headers, b: Headers) {
    && (forall h :: h in a && h.OfApplication? ==> h in b && b[h] == a[h])
    && (forall h :: h in b && h.OfApplication? ==> h in a)
  }

  /** A retry of `m0`: the same for every handler except for the higher count. */
  ghost predicate IsRetryOf(p: Policy, m: Message, m0: Message) {
    && Readable(m) && Readable(m0) && p.requeue
    && m.body == m0.body && KeyOf(m) == KeyOf(m0) && m.correlation == m0.correlation
    && CountOf(m0).value < CountOf(m).value <= p.limit
    && (HasId(m0) ==> m.id == m0.id)
    && SameApplicationHeaders(m.headers, m0.headers)
    && OriginalKey in m.headers && Cc !in m.headers && Bcc !in m.headers
  }

  ghost predicate DescendsFrom(p: Policy, m: Message, m0: Message) {
    m == m0 || IsRetryOf(p, m, m0)
  }

  lemma RetryCopyIsRetry(p: Policy, m: Message, m0: Message, newId: string)
    requires DescendsFrom(p, m, m0) && Readable(m) && !Exhausted(p, m)
    ensures IsRetryOf(p, RetryCopy(p, m, newId), m0)
    ensures CountOf(RetryCopy(p, m, newId)) == Some(CountOf(m).value + 1)
  {
  }

  lemma ReturnedRetryIsRetry(p: Policy, m: Message, m0: Message, key: string, added: Headers)
    requires IsRetryOf(p, m, m0) && OnlyBrokerHeaders(added)
    ensures IsRetryOf(p, m.(key := key, headers := m.headers + added), m0)
    ensures CountOf(m.(key := key, headers := m.headers + added)) == CountOf(m)
  {
  }

  /** A copy that no further attempt can help. */
  predicate Hopeless(p: Policy, m: Message) {
    !Readable(m) || Exhausted(p, m)
  }

  ghost predicate CopyOk(p: Policy, s: State, c: Copy) {
    && c.origin in s.original
    && DescendsFrom(p, c.msg, s.original[c.origin])
    && (c.place == Retry ==> IsRetryOf(p, c.msg, s.original[c.origin]))
    && (c.place == Dead || c.place == Consumer(Refused) ==> Hopeless(p, c.msg))
    && (c.place.Consumer? && c.place.phase in {Failed, Published, Unpublished} ==>
          Readable(c.msg) && !Exhausted(p, c.msg))
    && (c.place == Consumer(Succeeded) ==> Handled(s, c.origin))
  }

  /** A handler has succeeded on this message. */
  ghost predicate Handled(s: State, o: Origin) {
    exists k :: 0 <= k < |s.calls| && s.calls[k].origin == o && s.calls[k].ok
  }

  /** A copy exists that is not just waiting for its ack after its retry has been published. */
  ghost predicate Somewhere(s: State, o: Origin) {
    exists i :: i in s.copies && s.copies[i].origin == o && s.copies[i].place != Consumer(Published)
  }

  /** What a call was given is the original message, apart from the count and the broker's additions. */
  ghost predicate CallOk(p: Policy, s: State, call: Call) {
    && call.origin in s.original
    && var m0 := s.original[call.origin];
       && Readable(m0)
       && call.given.payload == m0.body.payload
       && call.given.key == KeyOf(m0).value
       && call.given.correlation == m0.correlation
       && SameApplicationHeaders(call.given.headers, m0.headers)
       && (HasId(m0) ==> call.given.id == m0.id)
  }

  ghost predicate CopiesOk(p: Policy, s: State) {
    forall i :: i in s.copies ==> CopyOk(p, s, s.copies[i])
  }

  ghost predicate CallsOk(p: Policy, s: State) {
    forall k :: 0 <= k < |s.calls| ==> CallOk(p, s, s.calls[k])
  }

  ghost predicate NoneLost(s: State) {
    && (forall o :: o in s.original ==> o in s.done || Somewhere(s, o))
    && (forall o :: o in s.done ==> o in s.original && Handled(s, o))
  }

  ghost predicate Inv(p: Policy, s: State) {
    CopiesOk(p, s) && CallsOk(p, s) && NoneLost(s)
  }

  // ---------------------------------------------------------------- the invariant is kept

  lemma HandledStays(p: Policy, s: State, e: Event, o: Origin)
    requires Enabled(s, e) && Handled(s, o)
    ensures Handled(Next(p, s, e), o)
  {
    var k :| 0 <= k < |s.calls| && s.calls[k].origin == o && s.calls[k].ok;
    assert Next(p, s, e).calls[k] == s.calls[k];
  }

  lemma UntouchedCopyStaysOk(p: Policy, s: State, e: Event, c: Copy)
    requires Enabled(s, e) && CopyOk(p, s, c)
    ensures CopyOk(p, Next(p, s, e), c)
  {
    hide DescendsFrom;
    hide IsRetryOf;
    hide RetryCopy;
    if Handled(s, c.origin) {
      HandledStays(p, s, e, c.origin);
    }
  }

  lemma MovedCopyStaysOk(p: Policy, s: State, e: Event)
    requires Enabled(s, e) && e.copy in s.copies && e.copy in Next(p, s, e).copies && CopyOk(p, s, s.copies[e.copy])
    ensures CopyOk(p, Next(p, s, e), Next(p, s, e).copies[e.copy])
  {
    var s', c := Next(p, s, e), s.copies[e.copy];
    hide IsRetryOf;
    hide RetryCopy;
    if e.Expire? {
      ReturnedRetryIsRetry(p, c.msg, s.original[c.origin], p.queue, e.added);
    } else if e.Handle? && e.ok {
      assert s'.calls[|s.calls|].origin == c.origin;
    }
  }

  lemma OldCopyStaysOk(p: Policy, s: State, e: Event, i: CopyId)
    requires CopiesOk(p, s) && Enabled(s, e) && i in s.copies && i in Next(p, s, e).copies
    ensures CopyOk(p, Next(p, s, e), Next(p, s, e).copies[i])
  {
    assert CopyOk(p, s, s.copies[i]);
    hide CopyOk;
    if e.copy == i {
      MovedCopyStaysOk(p, s, e);
    } else {
      UntouchedCopyStaysOk(p, s, e, s.copies[i]);
    }
  }

  lemma NewCopyIsOk(p: Policy, s: State, e: Event, i: CopyId)
    requires CopiesOk(p, s) && Enabled(s, e) && i !in s.copies && i in Next(p, s, e).copies
    ensures CopyOk(p, Next(p, s, e), Next(p, s, e).copies[i])
  {
    if e.PublishRetry? || e.FailPublish? {
      var c := s.copies[e.copy];
      assert CopyOk(p, s, c);
      hide CopiesOk;
      hide IsRetryOf;
      hide RetryCopy;
      RetryCopyIsRetry(p, c.msg, s.original[c.origin], e.newId);
    }
  }

  lemma CopiesStayOk(p: Policy, s: State, e: Event)
    requires CopiesOk(p, s) && Enabled(s, e)
    ensures CopiesOk(p, Next(p, s, e))
  {
    hide CopyOk;
    hide Next;
    forall i | i in Next(p, s, e).copies ensures CopyOk(p, Next(p, s, e), Next(p, s, e).copies[i]) {
      if i in s.copies {
        OldCopyStaysOk(p, s, e, i);
      } else {
        NewCopyIsOk(p, s, e, i);
      }
    }
  }

  lemma CallsStayOk(p: Policy, s: State, e: Event)
    requires CopiesOk(p, s) && CallsOk(p, s) && Enabled(s, e)
    ensures CallsOk(p, Next(p, s, e))
  {
    var s' := Next(p, s, e);
    forall k | 0 <= k < |s'.calls| ensures CallOk(p, s', s'.calls[k]) {
      if k < |s.calls| {
        assert CallOk(p, s, s.calls[k]) && s'.calls[k] == s.calls[k];
      } else {
        var c := s.copies[e.copy];
        assert CopyOk(p, s, c);
      }
    }
  }

  lemma DoneIsHandled(p: Policy, s: State, e: Event, o: Origin)
    requires CopiesOk(p, s) && NoneLost(s) && Enabled(s, e) && o in Next(p, s, e).done
    ensures o in Next(p, s, e).original && Handled(Next(p, s, e), o)
  {
    if o !in s.done {
      assert CopyOk(p, s, s.copies[e.copy]);
    }
    hide CopiesOk;
    HandledStays(p, s, e, o);
  }

  /** Whatever happens to one copy, the message stays somewhere until it is done. */
  lemma SomeCopyRemains(p: Policy, s: State, e: Event, o: Origin)
    requires NoneLost(s) && Enabled(s, e)
    requires o in Next(p, s, e).original && o !in Next(p, s, e).done
    ensures Somewhere(Next(p, s, e), o)
  {
    var s' := Next(p, s, e);
    if o in s.original {
      assert o !in s.done;
      var i :| i in s.copies && s.copies[i].origin == o && s.copies[i].place != Consumer(Published);
      hide NoneLost;
      var j := if e.PublishRetry? && e.copy == i then e.made else i;
      assert j in s'.copies && s'.copies[j].origin == o && s'.copies[j].place != Consumer(Published);
    } else {
      assert s'.copies[e.copy].origin == o;
    }
  }

  lemma NoneIsLost(p: Policy, s: State, e: Event)
    requires CopiesOk(p, s) && NoneLost(s) && Enabled(s, e)
    ensures NoneLost(Next(p, s, e))
  {
    var s' := Next(p, s, e);
    hide Next;
    forall o | o in s'.done ensures o in s'.original && Handled(s', o) {
      DoneIsHandled(p, s, e, o);
    }
    forall o | o in s'.original && o !in s'.done ensures Somewhere(s', o) {
      SomeCopyRemains(p, s, e, o);
    }
  }

  lemma NextKeepsInv(p: Policy, s: State, e: Event)
    requires Inv(p, s) && Enabled(s, e)
    ensures Inv(p, Next(p, s, e))
  {
    CopiesStayOk(p, s, e);
    CallsStayOk(p, s, e);
    NoneIsLost(p, s, e);
  }

  lemma {:induction false} RunKeepsInv(p: Policy, s: State, es: seq<Event>)
    requires Inv(p, s) && IsRun(p, s, es)
    ensures Inv(p, Run(p, s, es))
    decreases |es|
  {
    hide Inv;
    if es != [] {
      NextKeepsInv(p, s, es[0]);
      RunKeepsInv(p, Next(p, s, es[0]), es[1..]);
    }
  }

  // ---------------------------------------------------------------- what every run guarantees

  /**
   No message is lost: until a handler success has acknowledged it, a copy of it is
   in the source queue, at the consumer, in the retry queue or dead-lettered, and not
   just waiting for the ack that removes it.  The crash between a retry's publication
   and the ack duplicates, it never drops.
   */
  lemma NoMessageIsLost(p: Policy, es: seq<Event>, o: Origin)
    requires IsRun(p, Init(), es)
    ensures
      var s := Run(p, Init(), es);
      o in s.original ==>
        if o in s.done then Handled(s, o) else Somewhere(s, o)
  {
    RunKeepsInv(p, Init(), es);
  }

  /** No retry goes beyond the limit, and a retry changes nothing a handler can see but the count. */
  lemma RetriesAreBounded(p: Policy, es: seq<Event>, i: CopyId)
    requires IsRun(p, Init(), es)
    ensures
      var s := Run(p, Init(), es);
      i in s.copies ==>
        var c := s.copies[i];
        && c.origin in s.original
        && (c.msg == s.original[c.origin] ||
            (IsRetryOf(p, c.msg, s.original[c.origin]) && CountOf(c.msg).value <= p.limit))
  {
    RunKeepsInv(p, Init(), es);
    var s := Run(p, Init(), es);
    assert i in s.copies ==> CopyOk(p, s, s.copies[i]);
  }

  /** A message is dead-lettered only when it cannot be read or has no attempt left. */
  lemma DeadLettersAreHopeless(p: Policy, es: seq<Event>, i: CopyId)
    requires IsRun(p, Init(), es)
    ensures var s := Run(p, Init(), es); At(s, i, Dead) ==> Hopeless(p, s.copies[i].msg)
  {
    RunKeepsInv(p, Init(), es);
    var s := Run(p, Init(), es);
    assert i in s.copies ==> CopyOk(p, s, s.copies[i]);
  }

  /** Every invocation sees the payload, the routing key and the application headers of the original. */
  lemma HandlersSeeTheOriginal(p: Policy, es: seq<Event>, k: nat)
    requires IsRun(p, Init(), es)
    ensures var s := Run(p, Init(), es); k < |s.calls| ==> CallOk(p, s, s.calls[k])
  {
    RunKeepsInv(p, Init(), es);
  }

  /** A dead letter stays where it is, and what is done stays done. */
  lemma {:induction false} DeadLettersStay(p: Policy, s: State, es: seq<Event>, i: CopyId)
    requires IsRun(p, s, es) && At(s, i, Dead)
    ensures i in Run(p, s, es).copies && Run(p, s, es).copies[i] == s.copies[i]
    ensures s.done <= Run(p, s, es).done
    decreases |es|
  {
    if es != [] {
      DeadLettersStay(p, Next(p, s, es[0]), es[1..], i);
    }
  }
}
