/**
 How a message is read, when it is given up and what its retry carries, header by
 header, and what the theorems over runs say in those terms.
 */
module MessageOutcomes {
  import opened Options
  import opened MessageQueue
  import opened MessageRetries

  /** The retry count of a message without that header is zero; any other value than a natural number is unreadable. */
  lemma CountSpelledOut(m: Message, n: nat)
    ensures
      CountOf(m) == Some(n) <==>
      if RetryCount in m.headers then m.headers[RetryCount] == IntValue(n) else n == 0
    ensures CountOf(m).None? <==> RetryCount in m.headers && forall k: nat :: m.headers[RetryCount] != IntValue(k)
  {
  }

  lemma UnreadableExactlyWhen(m: Message)
    ensures
      !Readable(m) <==>
      || m.body == Malformed
      || (RetryCount in m.headers && !(m.headers[RetryCount].IntValue? && 0 <= m.headers[RetryCount].i))
      || (OriginalKey in m.headers && !m.headers[OriginalKey].TextValue?)
  {
  }

  /** The handler is given the original routing key when there is one, and everything else as delivered. */
  lemma DecodedSpelledOut(m: Message)
    requires Readable(m)
    ensures
      var given := Decoded(m);
      && m.body == Json(given.payload) && given.headers == m.headers
      && given.id == m.id && given.correlation == m.correlation
      && (OriginalKey in m.headers ==> m.headers[OriginalKey] == TextValue(given.key))
      && (OriginalKey !in m.headers ==> given.key == m.key)
  {
  }

  /** A failure is final without requeueing, or when the message was retried as often as the limit says. */
  lemma GivenUpExactlyWhen(p: Policy, m: Message)
    requires Readable(m)
    ensures
      Exhausted(p, m) <==>
      || !p.requeue
      || p.limit == 0
      || (RetryCount in m.headers && p.limit <= m.headers[RetryCount].i)
  {
  }

  /** The retry, field by field. */
  lemma RetryCopySpelledOut(p: Policy, m: Message, newId: string)
    requires Readable(m)
    ensures
      var r := RetryCopy(p, m, newId);
      && r.body == m.body && r.correlation == m.correlation && r.key == p.queue + ".retry"
      && (m.id.Some? && m.id.value != "" ==> r.id == m.id)
      && (m.id.None? || m.id.value == "" ==> r.id == Some(newId))
      && RetryCount in r.headers && OriginalKey in r.headers && Cc !in r.headers && Bcc !in r.headers
      && r.headers[RetryCount] ==
         IntValue(if RetryCount in m.headers then m.headers[RetryCount].i + 1 else 1)
      && r.headers[OriginalKey] == (if OriginalKey in m.headers then m.headers[OriginalKey] else TextValue(m.key))
      && (forall h :: h !in {RetryCount, OriginalKey, Cc, Bcc} ==> (h in r.headers <==> h in m.headers))
      && (forall h :: h !in {RetryCount, OriginalKey, Cc, Bcc} && h in m.headers ==> r.headers[h] == m.headers[h])
  {
  }

  /** When each step is possible: messages come, deliveries are taken back and retries expire at any moment. */
  lemma StepsSpelledOut(s: State, e: Event)
    ensures
      Enabled(s, e) <==>
      if e.Arrive? then e.origin !in s.original && e.copy !in s.copies
      else
        && e.copy in s.copies
        && var c := s.copies[e.copy];
           match e
           case Deliver(_) => c.place == Source
           case Refuse(_) => c.place == Consumer(Received) && !Readable(c.msg)
           case Handle(_, _) => c.place == Consumer(Received) && Readable(c.msg)
           case PublishRetry(_, made, _) => c.place == Consumer(Failed) && Readable(c.msg) && made !in s.copies
           case FailPublish(_, taken, _) =>
             && c.place == Consumer(Failed) && Readable(c.msg)
             && (taken == None || taken.value !in s.copies)
           case Settle(_) => c.place.Consumer? && c.place.phase != Received && c.place.phase != Failed
           case Recover(_) => c.place.Consumer?
           case Expire(_, added) => c.place == Retry && forall h: HeaderName :: h in added ==> h.OfBroker?
  {
  }

  /** Broker and consumer move a copy without changing it, but for the key and headers of an expiry. */
  lemma MovesSpelledOut(p: Policy, s: State, e: Event)
    requires e.Deliver? || e.Recover? || e.Refuse? || e.Expire?
    ensures
      Enabled(s, e) ==>
        var s' := Next(p, s, e);
        && e.copy in s.copies && s'.copies.Keys == s.copies.Keys
        && s'.original == s.original && s'.done == s.done && s'.calls == s.calls
        && (forall i :: i in s.copies && i != e.copy ==> s'.copies[i] == s.copies[i])
        && s'.copies[e.copy].origin == s.copies[e.copy].origin
    ensures
      Enabled(s, e) ==>
        var c, c' := s.copies[e.copy], Next(p, s, e).copies[e.copy];
        && (e.Deliver? ==> c.place == Source && c'.place == Consumer(Received) && c'.msg == c.msg)
        && (e.Recover? ==> c.place.Consumer? && c'.place == Source && c'.msg == c.msg)
        && (e.Refuse? ==>
              c.place == Consumer(Received) && !Readable(c.msg) && c'.place == Consumer(Refused) && c'.msg == c.msg)
        && (e.Expire? ==>
              && c.place == Retry && c'.place == Source && c'.msg.key == p.queue
              && c'.msg.body == c.msg.body && c'.msg.id == c.msg.id && c'.msg.correlation == c.msg.correlation
              && (forall h :: h in c'.msg.headers <==> h in c.msg.headers || h in e.added)
              && (forall h :: h in e.added ==> h.OfBroker? && c'.msg.headers[h] == e.added[h])
              && (forall h :: h in c.msg.headers && h !in e.added ==> c'.msg.headers[h] == c.msg.headers[h]))
  {
  }

  // ---------------------------------------------------------------- over runs

  /** A handler success, or a copy that is more than a delivery waiting for the ack that follows its retry. */
  lemma NoMessageIsLostSpelledOut(p: Policy, es: seq<Event>, o: Origin)
    requires IsRun(p, Init(), es)
    ensures
      var s := Run(p, Init(), es);
      o in s.original ==>
        if o in s.done then exists k :: 0 <= k < |s.calls| && s.calls[k].origin == o && s.calls[k].ok
        else
          exists i ::
            && i in s.copies && s.copies[i].origin == o
            && (s.copies[i].place.Consumer? ==> s.copies[i].place.phase != Published)
  {
    NoMessageIsLost(p, es, o);
    var s := Run(p, Init(), es);
    hide Run;
    if o in s.original && o !in s.done {
      var i :| i in s.copies && s.copies[i].origin == o && s.copies[i].place != Consumer(Published);
    }
  }

  /** The headers of the application, one by one. */
  ghost predicate SameForApplication(a: Headers, b: Headers) {
    forall name ::
      && (OfApplication(name) in a <==> OfApplication(name) in b)
      && (OfApplication(name) in a ==> a[OfApplication(name)] == b[OfApplication(name)])
  }

  lemma ApplicationHeadersSpelledOut(a: Headers, b: Headers)
    ensures SameApplicationHeaders(a, b) <==> SameForApplication(a, b)
  {
    if SameForApplication(a, b) {
      forall h | h in a && h.OfApplication? ensures h in b && b[h] == a[h] {
        assert h == OfApplication(h.name);
      }
      forall h | h in b && h.OfApplication? ensures h in a {
        assert h == OfApplication(h.name);
      }
    }
  }

  /** Every invocation, in the fields of the original message. */
  lemma HandlersSeeTheOriginalSpelledOut(p: Policy, es: seq<Event>, k: nat)
    requires IsRun(p, Init(), es)
    ensures
      var s := Run(p, Init(), es);
      k < |s.calls| ==>
        && s.calls[k].origin in s.original
        && var m0, given := s.original[s.calls[k].origin], s.calls[k].given;
           && m0.body == Json(given.payload) && given.correlation == m0.correlation
           && (OriginalKey in m0.headers ==> m0.headers[OriginalKey] == TextValue(given.key))
           && (OriginalKey !in m0.headers ==> given.key == m0.key)
           && SameForApplication(given.headers, m0.headers)
           && (m0.id.Some? && m0.id.value != "" ==> given.id == m0.id)
  {
    HandlersSeeTheOriginal(p, es, k);
    var s := Run(p, Init(), es);
    if k < |s.calls| {
      ApplicationHeadersSpelledOut(s.calls[k].given.headers, s.original[s.calls[k].origin].headers);
    }
  }

  /** A copy that is not the original carries a count of at least one and at most the limit. */
  lemma RetriesAreBoundedSpelledOut(p: Policy, es: seq<Event>, i: CopyId)
    requires IsRun(p, Init(), es)
    ensures
      var s := Run(p, Init(), es);
      i in s.copies && s.copies[i].origin in s.original && s.copies[i].msg != s.original[s.copies[i].origin] ==>
        var m, m0 := s.copies[i].msg, s.original[s.copies[i].origin];
        && p.requeue && RetryCount in m.headers && m.headers[RetryCount].IntValue?
        && 1 <= m.headers[RetryCount].i <= p.limit
        && (RetryCount in m0.headers && m0.headers[RetryCount].IntValue? ==>
              m0.headers[RetryCount].i < m.headers[RetryCount].i)
        && m.body == m0.body && m.correlation == m0.correlation && SameForApplication(m.headers, m0.headers)
  {
    RetriesAreBounded(p, es, i);
    var s := Run(p, Init(), es);
    if i in s.copies && s.copies[i].origin in s.original {
      ApplicationHeadersSpelledOut(s.copies[i].msg.headers, s.original[s.copies[i].origin].headers);
    }
  }

  /** Why a message is among the dead letters. */
  lemma DeadLetterSpelledOut(p: Policy, es: seq<Event>, i: CopyId)
    requires IsRun(p, Init(), es)
    ensures
      var s := Run(p, Init(), es);
      i in s.copies && s.copies[i].place == Dead ==>
        var m := s.copies[i].msg;
        || m.body == Malformed
        || (RetryCount in m.headers && !(m.headers[RetryCount].IntValue? && 0 <= m.headers[RetryCount].i))
        || (OriginalKey in m.headers && !m.headers[OriginalKey].TextValue?)
        || !p.requeue || p.limit == 0
        || (RetryCount in m.headers && m.headers[RetryCount].IntValue? && p.limit <= m.headers[RetryCount].i)
  {
    DeadLettersAreHopeless(p, es, i);
  }

  /** A new message of a handler that keeps failing: `limit + 1` invocations with requeueing, one without. */
  lemma NewMessageUsesItsAttempts(p: Policy, es: seq<Event>, o: Origin, i: CopyId)
    requires UndisturbedRun(p, Init(), es, o)
    ensures IsRun(p, Init(), es)
    ensures
      var s := Run(p, Init(), es);
      o in s.original && Readable(s.original[o]) && RetryCount !in s.original[o].headers && Live(s, i, o) ==>
        var granted := if p.requeue then p.limit + 1 else 1;
        && CallsOf(s.calls, o) <= granted
        && (CallsOf(s.calls, o) == granted <==> s.copies[i].place in {Dead, Consumer(Refused)})
  {
    FailingHandlerUsesItsAttempts(p, es, o);
    var s := Run(p, Init(), es);
    hide Run;
    hide IsRun;
    if o in s.original && Readable(s.original[o]) && Live(s, i, o) {
      assert UsedUp(p, s, s.copies[i], s.original[o]);
    }
  }
}
