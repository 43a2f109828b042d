/** The consumer callback of one subscription, settling one delivery at a time. */
module MessageConsumer {
  import opened Options
  import opened MessageQueue

  /** What publishing the retry copy comes to: confirmed, or an error before or after the broker took it. */
  datatype Publication = Confirmed | NotTaken | TakenUnconfirmed

  /** The ack of a delivery whose retry is out removes it; the nack of one whose retry is not puts it back. */
  lemma Acknowledged(p: Policy, s: State, i: CopyId)
    requires i in s.copies && s.copies[i].place in {Consumer(Published), Consumer(Unpublished)}
    ensures Enabled(s, Settle(i))
    ensures
      Next(p, s, Settle(i)) ==
      s.(copies := if s.copies[i].place == Consumer(Published) then s.copies - {i}
                   else s.copies[i := s.copies[i].(place := Source)])
  {
  }

  lemma LastWriteCounts(copies: map<CopyId, Copy>, i: CopyId, first: Copy, second: Copy)
    ensures copies[i := first][i := second] == copies[i := second]
    ensures copies[i := first] - {i} == copies - {i}
  {
  }

  class Consumer {
    const policy: Policy
    var state: State

    constructor (policy: Policy)
      ensures this.policy == policy && Inv(policy, state)
    {
      this.policy := policy;
      state := Init();
      new;
      assert Inv(policy, state);
    }

    /** A step of the broker or of the delivery protocol. */
    method Step(e: Event)
      requires Inv(policy, state) && Enabled(state, e)
      modifies this
      ensures state == Next(policy, old(state), e) && Inv(policy, state)
    {
      NextKeepsInv(policy, state, e);
      state := Next(policy, state, e);
    }

    /** `message.reject(requeue=False)`: the source queue's dead-letter exchange gets the copy. */
    method Reject(i: CopyId)
      requires Inv(policy, state) && At(state, i, Consumer(Refused))
      modifies this
      ensures Inv(policy, state)
      ensures state == Move(old(state), i, Dead)
    {
      Step(Settle(i));
    }

    /** The retry message, built from a copy of the delivery by editing its headers and its id. */
    method MakeRetry(m: Message, newId: string) returns (retry: Message)
      requires Readable(m)
      ensures retry == RetryCopy(policy, m, newId)
    {
      var headers := map h | h in m.headers && h != Cc && h != Bcc :: m.headers[h];
      headers := headers[RetryCount := IntValue(CountOf(m).value + 1)];
      headers := headers[OriginalKey := TextValue(KeyOf(m).value)];
      retry := m.(headers := headers);
      if !HasId(m) {
        retry := retry.(id := Some(newId));
      }
      retry := retry.(key := policy.queue + ".retry");
    }

    /** Publishes the retry of a failed delivery; on an error the broker may have taken it all the same. */
    method PublishRetryCopy(i: CopyId, publication: Publication, made: CopyId, newId: string)
      requires Inv(policy, state) && At(state, i, Consumer(Failed)) && made !in state.copies
      modifies this
      ensures Inv(policy, state)
      ensures
        var c := old(state).copies[i];
        && Readable(c.msg)
        && state.original == old(state).original && state.done == old(state).done && state.calls == old(state).calls
        && state.copies ==
             (if publication == NotTaken then old(state).copies
              else old(state).copies[made := Copy(c.origin, RetryCopy(policy, c.msg, newId), Retry)])
             [i := c.(place := Consumer(if publication == Confirmed then Published else Unpublished))]
    {
      var c := state.copies[i];
      assert CopyOk(policy, state, c);
      var retry := MakeRetry(c.msg, newId);
      NextKeepsInv(
        policy, state,
        match publication
        case Confirmed => PublishRetry(i, made, newId)
        case NotTaken => FailPublish(i, None, newId)
        case TakenUnconfirmed => FailPublish(i, Some(made), newId));
      var copies := state.copies;
      if publication != NotTaken {
        copies := copies[made := Copy(c.origin, retry, Retry)];
      }
      copies := copies[i := c.(place := Consumer(if publication == Confirmed then Published else Unpublished))];
      state := state.(copies := copies);
    }

    /** The retry path: publish first, then ack; undo by nack while the channel is open. */
    method RetryDelivery(i: CopyId, publication: Publication, open: bool, made: CopyId, newId: string)
      requires Inv(policy, state) && At(state, i, Consumer(Failed)) && made !in state.copies
      modifies this
      ensures Inv(policy, state)
      ensures state.original == old(state).original && state.done == old(state).done && state.calls == old(state).calls
      ensures
        var c, copies := old(state).copies[i], old(state).copies;
        && Readable(c.msg)
        && var retry := Copy(c.origin, RetryCopy(policy, c.msg, newId), Retry);
           var kept := c.(place := if open then Source else Consumer(Unpublished));
           match publication
           case Confirmed => state.copies == copies[made := retry] - {i}
           case NotTaken => state.copies == copies[i := kept]
           case TakenUnconfirmed => state.copies == copies[made := retry][i := kept]
    {
      ghost var c, copies := state.copies[i], state.copies;
      PublishRetryCopy(i, publication, made, newId);
      ghost var retry := Copy(c.origin, RetryCopy(policy, c.msg, newId), Retry);
      hide Inv;
      hide Next;
      hide RetryCopy;
      hide Readable;
      LastWriteCounts(
        if publication == NotTaken then copies else copies[made := retry], i, state.copies[i], c.(place := Source));
      if publication == Confirmed || open {
        Acknowledged(policy, state, i);
        Step(Settle(i));
      }
    }

    /**
     `_consume_message` for a delivered copy.  `ok` is the handler's outcome and
     `open` says whether the delivery's channel is still open when a failed
     publication is to be undone; on a closed one the broker recovers the delivery.
     */
    method ConsumeMessage(
      i: CopyId, ok: bool, publication: Publication, open: bool, made: CopyId, newId: string)
      requires Inv(policy, state) && At(state, i, Consumer(Received)) && made !in state.copies
      modifies this
      ensures Inv(policy, state)
      ensures state.original == old(state).original
      ensures
        var c, copies := old(state).copies[i], old(state).copies;
        if !Readable(c.msg) then
          && state.copies == copies[i := c.(place := Dead)]
          && state.calls == old(state).calls && state.done == old(state).done
        else
          && state.calls == old(state).calls + [Call(c.origin, Decoded(c.msg), ok)]
          && if ok then
               state.copies == copies - {i} && state.done == old(state).done + {c.origin}
             else
               && state.done == old(state).done
               && if Exhausted(policy, c.msg) then
                    state.copies == copies[i := c.(place := Dead)]
                  else
                    var retry := Copy(c.origin, RetryCopy(policy, c.msg, newId), Retry);
                    match publication
                    case Confirmed => state.copies == copies[made := retry] - {i}
                    case NotTaken =>
                      state.copies == copies[i := c.(place := if open then Source else Consumer(Unpublished))]
                    case TakenUnconfirmed =>
                      state.copies ==
                      copies[made := retry][i := c.(place := if open then Source else Consumer(Unpublished))]
    {
      hide Inv;
      hide RetryCopy;
      hide IsRetryOf;
      var m := state.copies[i].msg;
      if CountOf(m).None? || KeyOf(m).None? || m.body.Malformed? {
        Step(Refuse(i));
        Reject(i);
        return;
      }
      Step(Handle(i, ok));
      if ok {
        Step(Settle(i));
        return;
      }
      if !policy.requeue || CountOf(m).value >= policy.limit {
        Reject(i);
        return;
      }
      RetryDelivery(i, publication, open, made, newId);
    }
  }
}
