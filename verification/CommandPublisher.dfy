/**
 Publishing one movement command over MQTT: the addresses of the broker are tried
 in turn, each with its share of the time that is left, until one connection is up.
 Times are exact; the wall clock of the deadline and the monotonic clock agree.
 */
module CommandPublisher {
  import opened Options

  type Time = real

  /**
   What one address does: how long its connection takes or takes to be refused, how
   far a connect phase that runs into its limit oversteps it (a blocking connect, a
   thread that starts late), whether a connection that comes up within that overrun
   is still noticed by the poll under way, and what becomes of the publication.
   */
  datatype Address = Address(
    connects: bool, connectTakes: Time, overrun: Time, slips: bool, confirms: bool, confirmTakes: Time)
  {
    predicate Valid() {
      connectTakes >= 0.0 && overrun >= 0.0 && confirmTakes >= 0.0
    }

    /** An address that ends its connect phase by the limit it was given. */
    predicate Prompt() {
      overrun == 0.0
    }
  }

  /** `sentAt` is the moment the command was handed to a connected client. */
  datatype Outcome =
    | ConnectFailed(end: Time)
    | Expired(end: Time)
    | PublishFailed(end: Time, sentAt: Time)
    | Published(end: Time, sentAt: Time)

  /** One attempt: when it began and until when its connection had to be up. */
  datatype Attempt = Attempt(start: Time, limit: Time, outcome: Outcome)

  datatype Error =
    | Stopping | Disconnected | DeadlineElapsed | NameUnresolved | NoAddresses | AttemptFailed(outcome: Outcome)

  predicate Sent(o: Outcome) {
    o.PublishFailed? || o.Published?
  }

  function Min(a: Time, b: Time): Time {
    if a <= b then a else b
  }

  /** An equal share of the remaining time for each of the `left` addresses. */
  function Limit(now: Time, expires: Time, left: nat): Time
    requires left > 0
  {
    now + (if expires > now then expires - now else 0.0) / left as real
  }

  function Max(a: Time, b: Time): Time {
    if a <= b then b else a
  }

  /** The connection comes up after its limit, but within the poll that was running when the limit passed. */
  predicate Slips(a: Address, now: Time, until: Time) {
    a.connects && a.slips && now < until <= now + a.connectTakes <= until + a.overrun
  }

  /**
   One run of the worker.  A connection that is not up by the attempt's own limit is a
   connection failure, and so is a refusal before it; a timeout after the connection
   is up is not.
   */
  function PublishOnce(a: Address, now: Time, limit: Time, expires: Time): (o: Outcome)
    requires a.Valid()
    ensures o.end >= now
    ensures Sent(o) ==> now <= o.sentAt < expires
    ensures o.Published? ==> o.end < expires
    ensures
      var until := Min(limit, expires);
      o.ConnectFailed? <==> !a.connects || (until <= now + a.connectTakes && !Slips(a, now, until))
    ensures o.ConnectFailed? ==> o.end <= Max(now, Min(limit, expires)) + a.overrun
    ensures
      var up, until := now + a.connectTakes, if limit <= expires then limit else expires;
      var noticed := up < until || (a.slips && now < until && up <= until + a.overrun);
      && (Sent(o) <==> a.connects && noticed && up < expires)
      && (Sent(o) ==> o.sentAt == up)
      && (o.Published? <==> Sent(o) && a.confirms && up + a.confirmTakes < expires)
      && (o.Published? ==> o.end == up + a.confirmTakes)
      && (o.Expired? <==> a.connects && noticed && up >= expires)
  {
    var until := Min(limit, expires);
    var up := now + a.connectTakes;
    if until <= up && !Slips(a, now, until) then ConnectFailed(Max(now, until) + a.overrun)
    else if !a.connects then ConnectFailed(up)
    else if up >= expires then Expired(up)
    else if up + a.confirmTakes >= expires then PublishFailed(Max(up, expires) + a.overrun, up)
    else if a.confirms then Published(up + a.confirmTakes, up)
    else PublishFailed(up + a.confirmTakes, up)
  }

  // ---------------------------------------------------------------- what a sequence of attempts is

  /** The attempts of one call: all but the last failed to connect, and each began where the one before ended. */
  ghost predicate IsFallback(log: seq<Attempt>, n: nat, began: Time, expires: Time) {
    && |log| <= n
    && (log != [] ==> log[0].start == began)
    && (forall i :: 0 <= i < |log| ==> log[i].limit == Limit(log[i].start, expires, n - i))
    && (forall i :: 0 <= i < |log| && Sent(log[i].outcome) ==> log[i].start <= log[i].outcome.sentAt < expires)
    && (forall i :: 0 <= i < |log| - 1 ==> log[i].outcome.ConnectFailed? && log[i + 1].start == log[i].outcome.end)
  }

  /** Each attempt came to what its address does in the time it had. */
  ghost predicate AsAnswered(log: seq<Attempt>, addresses: seq<Address>, expires: Time)
    requires forall i :: 0 <= i < |addresses| ==> addresses[i].Valid()
  {
    && |log| <= |addresses|
    && forall i :: 0 <= i < |log| ==>
         log[i].outcome == PublishOnce(addresses[i], log[i].start, log[i].limit, expires)
  }

  function SentCount(log: seq<Attempt>): nat {
    if log == [] then 0 else SentCount(log[..|log| - 1]) + if Sent(log[|log| - 1].outcome) then 1 else 0
  }

  lemma {:induction false} NoneSent(log: seq<Attempt>)
    requires forall i :: 0 <= i < |log| ==> !Sent(log[i].outcome)
    ensures SentCount(log) == 0
  {
    if log != [] {
      NoneSent(log[..|log| - 1]);
    }
  }

  /** Whatever fails, one call hands the command to the device at most once, and before the deadline. */
  lemma AtMostOnePublication(log: seq<Attempt>, n: nat, began: Time, expires: Time)
    requires IsFallback(log, n, began, expires)
    ensures SentCount(log) <= 1
    ensures SentCount(log) == 1 <==> log != [] && Sent(log[|log| - 1].outcome)
    ensures forall i :: 0 <= i < |log| && Sent(log[i].outcome) ==> i == |log| - 1 && log[i].outcome.sentAt < expires
  {
    if log != [] {
      NoneSent(log[..|log| - 1]);
    }
  }

  lemma DivideEvenly(rest: Time, left: nat)
    requires left > 0
    ensures rest / left as real * left as real == rest
  {
  }

  lemma CancelFactor(a: Time, b: Time, factor: Time)
    requires factor > 0.0 && a * factor <= b * factor
    ensures a <= b
  {
  }

  lemma ShareOfSame(a: Time, b: Time, left: nat)
    requires left > 0 && a * left as real <= b
    ensures a <= b / left as real
  {
    DivideEvenly(b, left);
    CancelFactor(a, b / left as real, left as real);
  }

  /** An attempt that ends by its limit leaves each of the others at least the share it had itself. */
  lemma SharesNeverShrink(now: Time, end: Time, expires: Time, left: nat)
    requires left > 1 && now <= expires && end <= Limit(now, expires, left)
    ensures end <= expires
    ensures (expires - now) / left as real <= (expires - end) / (left - 1) as real
  {
    var share := (expires - now) / left as real;
    DivideEvenly(expires - now, left);
    assert share >= 0.0;
    assert end <= now + share;
    assert share * (left - 1) as real == share * left as real - share;
    assert share * (left - 1) as real <= expires - end;
    assert share * (left - 1) as real >= 0.0;
    ShareOfSame(share, expires - end, left - 1);
  }

  lemma {:induction false} AttemptHasItsShare(log: seq<Attempt>, n: nat, began: Time, expires: Time, i: nat)
    requires IsFallback(log, n, began, expires) && began <= expires && i < |log|
    requires forall k :: 0 <= k < i ==> log[k].outcome.end <= log[k].limit
    ensures log[i].start <= expires
    ensures (expires - began) / n as real <= (expires - log[i].start) / (n - i) as real
  {
    if i > 0 {
      AttemptHasItsShare(log, n, began, expires, i - 1);
      SharesNeverShrink(log[i - 1].start, log[i].start, expires, n - i + 1);
    }
  }

  /** The polling keeps a prompt address within its limit. */
  lemma PromptEndsByItsLimit(log: seq<Attempt>, addresses: seq<Address>, began: Time, expires: Time, k: nat)
    requires forall i :: 0 <= i < |addresses| ==> addresses[i].Valid()
    requires IsFallback(log, |addresses|, began, expires) && AsAnswered(log, addresses, expires)
    requires k < |log| && addresses[k].Prompt() && log[k].outcome.ConnectFailed?
    ensures log[k].outcome.end <= log[k].limit
  {
    LimitIsNotBefore(log[k].start, expires, |addresses| - k);
  }

  lemma LimitIsNotBefore(now: Time, expires: Time, left: nat)
    requires left > 0
    ensures now <= Limit(now, expires, left) <= Max(now, expires)
  {
    ShareIsPart(if expires > now then expires - now else 0.0, left);
  }

  /** At least the n-th part of the budget. */
  predicate IsShare(time: Time, budget: Time, n: nat)
    requires n > 0
  {
    time >= budget / n as real
  }

  /** The first `i` of `n` addresses have used no more than their parts of the budget. */
  predicate KeptPace(used: Time, budget: Time, n: nat, i: nat) {
    used * n as real <= i as real * budget
  }

  /**
   With the budget left after name resolution, an address that is tried after prompt
   ones only gets at least its n-th part of that budget, and no limit passes the
   expiry of the call.
   */
  lemma EveryAddressGetsItsShare(
    log: seq<Attempt>, addresses: seq<Address>, began: Time, expires: Time, i: nat)
    requires forall k :: 0 <= k < |addresses| ==> addresses[k].Valid()
    requires IsFallback(log, |addresses|, began, expires) && AsAnswered(log, addresses, expires)
    requires began <= expires && i < |log| && forall k :: 0 <= k < i ==> addresses[k].Prompt()
    ensures IsShare(log[i].limit - log[i].start, expires - began, |addresses|)
    ensures log[i].start <= log[i].limit <= expires
  {
    hide PublishOnce;
    forall k | 0 <= k < i ensures log[k].outcome.end <= log[k].limit {
      PromptEndsByItsLimit(log, addresses, began, expires, k);
    }
    AttemptHasItsShare(log, |addresses|, began, expires, i);
    LimitIsNotBefore(log[i].start, expires, |addresses| - i);
  }

  /** When the attempt at address `i` begins, if all before it fail to connect. */
  function StartOf(addresses: seq<Address>, began: Time, expires: Time, i: nat): Time
    requires i < |addresses| && forall k :: 0 <= k < |addresses| ==> addresses[k].Valid()
  {
    if i == 0 then began
    else
      var start := StartOf(addresses, began, expires, i - 1);
      PublishOnce(addresses[i - 1], start, Limit(start, expires, |addresses| - i + 1), expires).end
  }

  lemma {:induction false} AttemptsBeginAsComputed(
    log: seq<Attempt>, addresses: seq<Address>, began: Time, expires: Time, i: nat)
    requires forall k :: 0 <= k < |addresses| ==> addresses[k].Valid()
    requires IsFallback(log, |addresses|, began, expires) && AsAnswered(log, addresses, expires) && i < |log|
    ensures began <= log[i].start == StartOf(addresses, began, expires, i)
  {
    hide PublishOnce;
    if i > 0 {
      AttemptsBeginAsComputed(log, addresses, began, expires, i - 1);
    }
  }

  lemma ShareByTimeUsed(budget: Time, used: Time, n: nat, i: nat)
    requires i < n && budget >= used
    ensures budget / n as real <= (budget - used) / (n - i) as real <==> used * n as real <= i as real * budget
  {
    var share, rest := budget / n as real, budget - used;
    DivideEvenly(budget, n);
    DivideEvenly(rest, n - i);
    calc <==> {
      share <= rest / (n - i) as real;
      { ScaleBoth(share, rest / (n - i) as real, (n - i) as real); }
      share * (n - i) as real <= rest;
      { ScaleBoth(share * (n - i) as real, rest, n as real); }
      share * (n - i) as real * n as real <= rest * n as real;
      { Regroup(share, (n - i) as real, n as real); }
      budget * (n - i) as real <= rest * n as real;
      budget * n as real - i as real * budget <= budget * n as real - used * n as real;
    }
  }

  lemma Regroup(share: Time, a: Time, b: Time)
    ensures share * a * b == share * b * a
  {
  }

  lemma ScaleBoth(a: Time, b: Time, factor: Time)
    requires factor > 0.0
    ensures a <= b <==> a * factor <= b * factor
  {
  }

  /**
   Exactly when a tried address gets its n-th part: the addresses before it must not
   have used more than theirs.  The time they use follows from what they do.
   */
  lemma ShareIsTimeLeft(log: seq<Attempt>, addresses: seq<Address>, began: Time, expires: Time, i: nat)
    requires forall k :: 0 <= k < |addresses| ==> addresses[k].Valid()
    requires IsFallback(log, |addresses|, began, expires) && AsAnswered(log, addresses, expires)
    requires began < expires && i < |log|
    ensures
      IsShare(log[i].limit - log[i].start, expires - began, |addresses|) <==>
      KeptPace(StartOf(addresses, began, expires, i) - began, expires - began, |addresses|, i)
  {
    hide PublishOnce;
    hide Limit;
    hide IsShare;
    hide KeptPace;
    AttemptsBeginAsComputed(log, addresses, began, expires, i);
    assert log[i].limit == Limit(log[i].start, expires, |addresses| - i);
    ShareWhenStartingAt(began, log[i].start, expires, |addresses|, i);
  }

  lemma ShareWhenStartingAt(began: Time, start: Time, expires: Time, n: nat, i: nat)
    requires i < n && began < expires && began <= start
    ensures
      IsShare(Limit(start, expires, n - i) - start, expires - began, n) <==>
      KeptPace(start - began, expires - began, n, i)
  {
    var budget, used := expires - began, start - began;
    if used <= budget {
      ShareByTimeUsed(budget, used, n, i);
      NothingLeft(expires - start, n - i);
    } else {
      OutOfTime(budget, used, n, i);
    }
  }

  lemma NothingLeft(rest: Time, left: nat)
    requires rest >= 0.0 && left > 0
    ensures rest == 0.0 ==> rest / left as real == 0.0
  {
    DivideEvenly(rest, left);
    ShareIsPart(rest, left);
  }

  lemma OutOfTime(budget: Time, used: Time, n: nat, i: nat)
    requires 0.0 < budget < used && i < n
    ensures budget / n as real > 0.0 && used * n as real > i as real * budget
    ensures 0.0 / (n - i) as real == 0.0
  {
    DivideEvenly(budget, n);
    DivideEvenly(0.0, n - i);
    ScaleBoth(budget, used, n as real);
    assert budget * n as real >= budget * i as real;
    assert used * n as real > budget * n as real;
    if budget / n as real <= 0.0 {
      ScaleBoth(budget / n as real, 0.0, n as real);
    }
    ShareIsPart(0.0, n - i);
  }

  lemma OneOfMany(share: Time, factor: Time)
    requires factor >= 1.0 && share * factor >= 0.0
    ensures 0.0 <= share <= share * factor
  {
  }

  lemma ShareIsPart(rest: Time, left: nat)
    requires rest >= 0.0 && left > 0
    ensures 0.0 <= rest / left as real <= rest
  {
    DivideEvenly(rest, left);
    OneOfMany(rest / left as real, left as real);
  }

  /** The first address oversteps its limit by as much as it was given. */
  function LateAddresses(): seq<Address> {
    [Address(false, 10.0, 1.0, false, false, 0.0), Address(true, 0.0, 0.0, false, true, 0.0)]
  }

  /** An input on which an address gets less than its part: nothing is left for the second one. */
  lemma LateFailureStarvesTheNext()
    ensures
      var log := [Attempt(0.0, 1.0, ConnectFailed(2.0)), Attempt(2.0, 2.0, ConnectFailed(2.0))];
      && IsFallback(log, 2, 0.0, 2.0) && AsAnswered(log, LateAddresses(), 2.0)
      && log[1].limit == log[1].start
  {
    var a := LateAddresses();
    assert Limit(0.0, 2.0, 2) == 1.0;
    assert Limit(2.0, 2.0, 1) == 2.0;
    assert PublishOnce(a[0], 0.0, 1.0, 2.0) == ConnectFailed(2.0);
    assert PublishOnce(a[1], 2.0, 2.0, 2.0) == ConnectFailed(2.0);
  }

  /** Without the overrun the second address is reached at its half of the time and publishes. */
  lemma PromptFailureLeavesTheNext()
    ensures
      var addresses := [LateAddresses()[0].(overrun := 0.0), LateAddresses()[1]];
      var log := [Attempt(0.0, 1.0, ConnectFailed(1.0)), Attempt(1.0, 2.0, Published(1.0, 1.0))];
      IsFallback(log, 2, 0.0, 2.0) && AsAnswered(log, addresses, 2.0)
  {
    var addresses := [LateAddresses()[0].(overrun := 0.0), LateAddresses()[1]];
    assert Limit(0.0, 2.0, 2) == 1.0;
    assert Limit(1.0, 2.0, 1) == 2.0;
    assert PublishOnce(addresses[0], 0.0, 1.0, 2.0) == ConnectFailed(1.0);
    assert PublishOnce(addresses[1], 1.0, 2.0, 2.0) == Published(1.0, 1.0);
  }

  // ---------------------------------------------------------------- the gateway

  class RobotActionMqttGateway {
    var stopping: bool
    var subscribed: bool
    const publishTimeout: Time

    constructor (publishTimeout: Time)
      ensures !stopping && !subscribed && this.publishTimeout == publishTimeout
    {
      stopping, subscribed, this.publishTimeout := false, false, publishTimeout;
    }

    /**
     `publish_command`.  `resolveTakes` is the time of the name lookup; `log` are the
     attempts that were made.
     */
    method PublishCommand(now: Time, deadline: Option<Time>, resolveTakes: Time, addresses: seq<Address>)
      returns (error: Option<Error>, log: seq<Attempt>)
      requires resolveTakes >= 0.0 && forall i :: 0 <= i < |addresses| ==> addresses[i].Valid()
      ensures
        var budget := if deadline.Some? then Min(publishTimeout, deadline.value - now) else publishTimeout;
        && IsFallback(log, |addresses|, now + resolveTakes, now + budget)
        && AsAnswered(log, addresses, now + budget)
        && (log == [] <==>
              stopping || !subscribed || budget <= 0.0 || resolveTakes >= budget || addresses == [])
        && (log != [] && |log| < |addresses| ==> !log[|log| - 1].outcome.ConnectFailed?)
        && (error.None? <==> log != [] && log[|log| - 1].outcome.Published?)
        && (error.None? ==>
              var a := addresses[|log| - 1];
              && a.connects && a.confirms
              && now + resolveTakes + a.connectTakes + a.confirmTakes < now + budget)
        && (forall i :: 0 <= i < |log| && deadline.Some? && Sent(log[i].outcome) ==>
              log[i].outcome.sentAt < deadline.value)
        && (log != [] && error.Some? ==> error.value == AttemptFailed(log[|log| - 1].outcome))
    {
      hide PublishOnce;
      hide Limit;
      log := [];
      if stopping {
        return Some(Stopping), log;
      }
      if !subscribed {
        return Some(Disconnected), log;
      }
      var budget := publishTimeout;
      if deadline.Some? {
        budget := Min(budget, deadline.value - now);
      }
      if budget <= 0.0 {
        return Some(DeadlineElapsed), log;
      }
      var expires := now + budget;
      if resolveTakes >= budget {
        return Some(NameUnresolved), log;
      }
      if addresses == [] {
        return Some(NoAddresses), log;
      }
      error, log := TryAddresses(addresses, now + resolveTakes, expires);
    }

    /** The loop over the addresses: on to the next one only after a failed connection. */
    method TryAddresses(addresses: seq<Address>, began: Time, expires: Time)
      returns (error: Option<Error>, log: seq<Attempt>)
      requires addresses != [] && forall i :: 0 <= i < |addresses| ==> addresses[i].Valid()
      ensures log != [] && IsFallback(log, |addresses|, began, expires)
      ensures AsAnswered(log, addresses, expires)
      ensures |log| < |addresses| ==> !log[|log| - 1].outcome.ConnectFailed?
      ensures
        error.None? ==>
          var a := addresses[|log| - 1];
          a.connects && a.confirms && began + a.connectTakes + a.confirmTakes < expires
      ensures
        var last := log[|log| - 1].outcome;
        error == if last.Published? then None else Some(AttemptFailed(last))
    {
      hide PublishOnce;
      hide Limit;
      log := [];
      var clock := began;
      var index := 0;
      while true
        invariant 0 <= index < |addresses| && |log| == index
        invariant IsFallback(log, |addresses|, began, expires)
        invariant AsAnswered(log, addresses, expires)
        invariant log != [] ==> log[|log| - 1].outcome.ConnectFailed?
        invariant began <= clock
        invariant clock == if log == [] then began else log[|log| - 1].outcome.end
        decreases |addresses| - index
      {
        var limit := Limit(clock, expires, |addresses| - index);
        var outcome := PublishOnce(addresses[index], clock, limit, expires);
        log := log + [Attempt(clock, limit, outcome)];
        clock := outcome.end;
        if outcome.Published? {
          return None, log;
        }
        if !outcome.ConnectFailed? || index == |addresses| - 1 {
          return Some(AttemptFailed(outcome)), log;
        }
        index := index + 1;
      }
    }
  }
}
