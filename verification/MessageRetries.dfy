/** How often a handler that keeps failing is invoked. */
module MessageRetries {
  import opened Options
  import opened MessageQueue

  function CallsOf(calls: seq<Call>, o: Origin): nat {
    if calls == [] then 0
    else CallsOf(calls[..|calls| - 1], o) + if calls[|calls| - 1].origin == o then 1 else 0
  }

  /** The invocations a readable message is granted. */
  function Attempts(p: Policy, m: Message): nat
    requires Readable(m)
  {
    if Exhausted(p, m) then 1 else p.limit - CountOf(m).value + 1
  }

  /** The handler fails on this message and neither a publication nor a channel of its copies does. */
  predicate Undisturbed(s: State, e: Event, o: Origin)
    requires Enabled(s, e)
  {
    e.FailPublish? || e.Recover? || (e.Handle? && e.ok) ==> s.copies[e.copy].origin != o
  }

  ghost predicate UndisturbedRun(p: Policy, s: State, es: seq<Event>, o: Origin)
    decreases |es|
  {
    es == [] ||
    (Enabled(s, es[0]) && Undisturbed(s, es[0], o) && UndisturbedRun(p, Next(p, s, es[0]), es[1..], o))
  }

  predicate Live(s: State, i: CopyId, o: Origin) {
    i in s.copies && s.copies[i].origin == o && s.copies[i].place != Consumer(Published)
  }

  /** How many invocations lie behind a copy at its place. */
  ghost predicate Counted(s: State, c: Copy, m0: Message)
    requires Readable(m0)
  {
    && Readable(c.msg)
    && var behind := CountOf(c.msg).value - CountOf(m0).value;
       match c.place
       case Source => CallsOf(s.calls, c.origin) == behind
       case Retry => CallsOf(s.calls, c.origin) == behind
       case Dead => CallsOf(s.calls, c.origin) == behind + 1
       case Consumer(Received) => CallsOf(s.calls, c.origin) == behind
       case Consumer(Refused) => CallsOf(s.calls, c.origin) == behind + 1
       case Consumer(Failed) => CallsOf(s.calls, c.origin) == behind + 1
       case Consumer(_) => false
  }

  /** One live copy, which knows how often the handler has been invoked. */
  ghost predicate Failing(s: State, o: Origin)
    requires o in s.original && Readable(s.original[o])
  {
    && !Handled(s, o)
    && (forall i, j :: Live(s, i, o) && Live(s, j, o) ==> i == j)
    && (forall i :: Live(s, i, o) ==> Counted(s, s.copies[i], s.original[o]))
  }

  lemma OneMoreCall(calls: seq<Call>, call: Call, o: Origin)
    ensures CallsOf(calls + [call], o) == CallsOf(calls, o) + if call.origin == o then 1 else 0
  {
    assert (calls + [call])[..|calls|] == calls;
  }

  lemma StillUnhandled(p: Policy, s: State, e: Event, o: Origin)
    requires Enabled(s, e) && Undisturbed(s, e, o) && !Handled(s, o)
    ensures !Handled(Next(p, s, e), o)
  {
    var s' := Next(p, s, e);
    forall k | 0 <= k < |s'.calls| && s'.calls[k].origin == o ensures !s'.calls[k].ok {
      assert k < |s.calls| ==> s'.calls[k] == s.calls[k];
    }
  }

  /** A live copy of the message after a step was live before it, or is the retry of the one that was. */
  lemma LiveFrom(p: Policy, s: State, e: Event, o: Origin, i: CopyId)
    requires Enabled(s, e) && Undisturbed(s, e, o) && o in s.original && Live(Next(p, s, e), i, o)
    ensures Live(s, i, o) || (e.PublishRetry? && i == e.made && Live(s, e.copy, o))
    ensures e.PublishRetry? && Live(s, e.copy, o) ==> i != e.copy
  {
  }

  lemma StillOneLive(p: Policy, s: State, e: Event, o: Origin)
    requires Enabled(s, e) && Undisturbed(s, e, o) && o in s.original
    requires forall i, j :: Live(s, i, o) && Live(s, j, o) ==> i == j
    ensures forall i, j :: Live(Next(p, s, e), i, o) && Live(Next(p, s, e), j, o) ==> i == j
  {
    hide Live;
    hide Next;
    forall i, j | Live(Next(p, s, e), i, o) && Live(Next(p, s, e), j, o) ensures i == j {
      LiveFrom(p, s, e, o, i);
      LiveFrom(p, s, e, o, j);
    }
  }

  lemma CountedAfterHandling(p: Policy, s: State, e: Event, m0: Message)
    requires e.Handle? && !e.ok && Enabled(s, e) && Readable(m0) && Counted(s, s.copies[e.copy], m0)
    ensures Counted(Next(p, s, e), Next(p, s, e).copies[e.copy], m0)
  {
    var c := s.copies[e.copy];
    OneMoreCall(s.calls, Call(c.origin, Decoded(c.msg), e.ok), c.origin);
  }

  lemma CountedAfterPublishing(p: Policy, s: State, e: Event, m0: Message)
    requires e.PublishRetry? && Enabled(s, e) && Readable(m0) && Counted(s, s.copies[e.copy], m0)
    ensures Counted(Next(p, s, e), Next(p, s, e).copies[e.made], m0)
  {
  }

  /** The steps of the broker and the ack move a copy without a call. */
  lemma CountedAfterMoving(p: Policy, s: State, e: Event, m0: Message)
    requires e.Deliver? || e.Refuse? || e.Settle? || e.Expire?
    requires Enabled(s, e) && Readable(m0) && Counted(s, s.copies[e.copy], m0)
    requires e.copy in Next(p, s, e).copies
    ensures Counted(Next(p, s, e), Next(p, s, e).copies[e.copy], m0)
  {
  }

  lemma CountedElsewhere(p: Policy, s: State, e: Event, c: Copy, m0: Message)
    requires Enabled(s, e) && Readable(m0) && Counted(s, c, m0)
    requires e.Handle? ==> s.copies[e.copy].origin != c.origin
    ensures Counted(Next(p, s, e), c, m0)
  {
    if e.Handle? {
      var moved := s.copies[e.copy];
      OneMoreCall(s.calls, Call(moved.origin, Decoded(moved.msg), e.ok), c.origin);
    }
  }

  lemma StillCounted(p: Policy, s: State, e: Event, o: Origin, i: CopyId)
    requires Enabled(s, e) && Undisturbed(s, e, o)
    requires o in s.original && Readable(s.original[o]) && Failing(s, o)
    requires Live(Next(p, s, e), i, o)
    ensures Counted(Next(p, s, e), Next(p, s, e).copies[i], s.original[o])
  {
    LiveFrom(p, s, e, o, i);
    var from := if e.PublishRetry? && i == e.made then e.copy else i;
    var m0 := s.original[o];
    assert Counted(s, s.copies[from], m0);
    hide Counted;
    if e.PublishRetry? && i == e.made {
      CountedAfterPublishing(p, s, e, m0);
    } else if e.copy != i {
      assert e.Handle? ==> !Live(s, e.copy, o);
      CountedElsewhere(p, s, e, s.copies[i], m0);
    } else if e.Handle? {
      CountedAfterHandling(p, s, e, m0);
    } else {
      CountedAfterMoving(p, s, e, m0);
    }
  }

  lemma NextKeepsFailing(p: Policy, s: State, e: Event, o: Origin)
    requires Enabled(s, e) && Undisturbed(s, e, o)
    requires o in s.original && Readable(s.original[o]) && Failing(s, o)
    ensures
      var s' := Next(p, s, e);
      o in s'.original && s'.original[o] == s.original[o] && Failing(s', o)
  {
    StillUnhandled(p, s, e, o);
    StillOneLive(p, s, e, o);
    hide Counted;
    hide Live;
    hide Handled;
    forall i | Live(Next(p, s, e), i, o) ensures Counted(Next(p, s, e), Next(p, s, e).copies[i], s.original[o]) {
      StillCounted(p, s, e, o, i);
    }
  }

  /** No call was made for a message that has not arrived. */
  lemma {:induction false} NoCallsBeforeArrival(calls: seq<Call>, o: Origin)
    requires forall k :: 0 <= k < |calls| ==> calls[k].origin != o
    ensures CallsOf(calls, o) == 0
  {
    if calls != [] {
      NoCallsBeforeArrival(calls[..|calls| - 1], o);
    }
  }

  lemma ArrivalStartsFailing(p: Policy, s: State, e: Event)
    requires Inv(p, s) && e.Arrive? && Enabled(s, e) && Readable(e.msg)
    ensures Failing(Next(p, s, e), e.origin)
  {
    var s' := Next(p, s, e);
    forall k | 0 <= k < |s.calls| ensures s.calls[k].origin != e.origin {
      assert CallOk(p, s, s.calls[k]);
    }
    NoCallsBeforeArrival(s.calls, e.origin);
    forall i | Live(s', i, e.origin) ensures i == e.copy {
      assert i in s.copies ==> CopyOk(p, s, s.copies[i]);
    }
  }

  lemma {:induction false} RunKeepsFailing(p: Policy, s: State, es: seq<Event>, o: Origin)
    requires Inv(p, s) && UndisturbedRun(p, s, es, o)
    requires o in s.original && Readable(s.original[o]) ==> Failing(s, o)
    ensures IsRun(p, s, es) && Inv(p, Run(p, s, es))
    ensures
      var s' := Run(p, s, es);
      o in s'.original && Readable(s'.original[o]) ==> Failing(s', o)
    decreases |es|
  {
    hide Inv;
    hide Failing;
    if es != [] {
      var e := es[0];
      NextKeepsInv(p, s, e);
      if o in s.original {
        if Readable(s.original[o]) {
          NextKeepsFailing(p, s, e, o);
        }
      } else if e.Arrive? && e.origin == o && Readable(e.msg) {
        ArrivalStartsFailing(p, s, e);
      }
      RunKeepsFailing(p, Next(p, s, e), es[1..], o);
    }
  }

  /** Never more than the granted attempts, and all of them exactly when the copy is given up. */
  ghost predicate UsedUp(p: Policy, s: State, c: Copy, m0: Message)
    requires Readable(m0)
  {
    && CallsOf(s.calls, c.origin) <= Attempts(p, m0)
    && (CallsOf(s.calls, c.origin) == Attempts(p, m0) <==> c.place == Dead || c.place == Consumer(Refused))
  }

  lemma LiveCopyTellsAttempts(p: Policy, s: State, o: Origin, i: CopyId)
    requires Inv(p, s) && o in s.original && Readable(s.original[o]) && Failing(s, o) && Live(s, i, o)
    ensures UsedUp(p, s, s.copies[i], s.original[o])
  {
    assert CopyOk(p, s, s.copies[i]) && Counted(s, s.copies[i], s.original[o]);
    hide Inv;
    hide Failing;
    hide CallsOf;
  }

  lemma UnhandledIsLive(p: Policy, s: State, o: Origin)
    requires Inv(p, s) && o in s.original && !Handled(s, o)
    ensures exists i :: Live(s, i, o)
  {
    var i :| i in s.copies && s.copies[i].origin == o && s.copies[i].place != Consumer(Published);
    assert Live(s, i, o);
  }

  /**
   A handler that keeps failing on a readable message is invoked once per granted
   attempt and no more: a new message with retries enabled is tried exactly
   `limit + 1` times, and it is dead-lettered after the last try and not before.
   */
  lemma FailingHandlerUsesItsAttempts(p: Policy, es: seq<Event>, o: Origin)
    requires UndisturbedRun(p, Init(), es, o)
    ensures IsRun(p, Init(), es)
    ensures
      var s := Run(p, Init(), es);
      o in s.original && Readable(s.original[o]) ==>
        (exists i :: Live(s, i, o)) && forall i :: Live(s, i, o) ==> UsedUp(p, s, s.copies[i], s.original[o])
  {
    RunKeepsFailing(p, Init(), es, o);
    var s := Run(p, Init(), es);
    hide *;
    if o in s.original && Readable(s.original[o]) {
      forall i | Live(s, i, o) ensures UsedUp(p, s, s.copies[i], s.original[o]) {
        LiveCopyTellsAttempts(p, s, o, i);
      }
      UnhandledIsLive(p, s, o);
    }
  }
}
