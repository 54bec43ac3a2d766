/** Python: the shared poison-message helper and the workers' polling loop around it. */
module PoisonMessage {
  import opened Outcomes
  import opened AtLeastOnce

  /** ValueError and its subclasses are permanent; everything else propagates. */
  datatype Exception = ValueError(text: string) | DlqPublishError(text: string) | OtherError(text: string)

  /**
   The producer during one dead-letter publish: what produce raises, what the delivery callback
   reports during the flush (None while it has not come), and how many messages the flush leaves.
   */
  datatype Broker = Broker(produceError: Option<Exception>, report: Option<Option<string>>, pending: nat)

  /** The client's contract: a flush that leaves nothing has reported on every message. */
  predicate Honest(b: Broker) {
    b.pending == 0 && b.produceError.None? ==> b.report.Some?
  }

  /** The broker has acknowledged the dead letter, and the flush came back empty. */
  predicate Confirmed(b: Broker) {
    b.produceError.None? && b.pending == 0 && b.report == Some(None)
  }

  /** What an unconfirmed publish raises: what produce raised, or a timeout before the broker's report. */
  function PublishError(b: Broker): (raised: Option<Exception>)
    ensures Honest(b) ==> (raised.None? <==> Confirmed(b))
  {
    if b.produceError.Some? then b.produceError
    else if b.pending > 0 then Some(DlqPublishError("timed out waiting for DLQ delivery confirmation"))
    else if b.report.Some? && b.report.value.Some? then Some(DlqPublishError(b.report.value.value))
    else None
  }

  /** Returns what it raises. */
  method PublishToDlq(b: Broker) returns (raised: Option<Exception>)
    requires Honest(b)
    ensures raised.None? <==> Confirmed(b)
    ensures raised == PublishError(b)
  {
    if b.produceError.Some? {
      return b.produceError;
    }
    var deliveryError: Option<Exception> := None;
    if b.report.Some? && b.report.value.Some? {
      deliveryError := Some(OtherError(b.report.value.value));
    }
    if b.pending > 0 {
      return Some(DlqPublishError("timed out waiting for DLQ delivery confirmation"));
    }
    if deliveryError.Some? {
      return Some(DlqPublishError(deliveryError.value.text));
    }
    return None;
  }

  /**
   One polled message: what process raises, what building the dead letter raises (the worker's own
   failed_event and dlq_key), the producer, and what the synchronous commit raises.
   */
  datatype Attempt = Attempt(
    processError: Option<Exception>, envelopeError: Option<Exception>, broker: Broker, commitError: Option<Exception>)

  function Classify(a: Attempt): Verdict {
    if a.processError.None? then Success else if a.processError.value.ValueError? then Poison else Transient
  }

  predicate Passes(a: Attempt) {
    && (a.processError.None? || (a.processError.value.ValueError? && a.envelopeError.None? && Confirmed(a.broker)))
    && a.commitError.None?
  }

  /**
   Processes one message and commits its offset, or raises; whatever it raises, the offset is not
   committed here. A commit that raises leaves it open whether the broker took it: a Committed effect
   may then still follow.
   */
  method HandleMessage(offset: nat, a: Attempt) returns (raised: Option<Exception>, effects: seq<Effect>)
    requires Honest(a.broker)
    ensures IsRun(true, Resumed(offset), effects)
    ensures raised.None? <==> Passes(a)
    ensures raised.None? ==> (
      var handled, buried := if Classify(a) == Success then {offset} else {}, if Classify(a) == Poison then {offset} else {};
      Play(true, Resumed(offset), effects) == Resumed(offset + 1).(handled := handled, buried := buried))
    ensures raised.Some? ==> Play(true, Resumed(offset), effects).committed == offset
    ensures Classify(a) == Transient ==> raised == a.processError && effects == [Processed(offset, Transient)]
    ensures raised == (if Classify(a) == Transient then a.processError
                       else if Classify(a) == Poison && a.envelopeError.Some? then a.envelopeError
                       else if Classify(a) == Poison && !Confirmed(a.broker) then PublishError(a.broker)
                       else a.commitError)
  {
    hide IsRun, Play;
    ghost var before := Resumed(offset);
    EmptyRun(true, before);
    effects := [Processed(offset, Classify(a))];
    RunsExtend(true, before, [], effects[0]);
    assert [] + [effects[0]] == effects;
    if a.processError.Some? {
      if !a.processError.value.ValueError? {
        return a.processError, effects;
      }
      if a.envelopeError.Some? {
        return a.envelopeError, effects;
      }
      raised := PublishToDlq(a.broker);
      RunsExtend(true, before, effects, Buried(offset, raised.None?));
      effects := effects + [Buried(offset, raised.None?)];
      if raised.Some? {
        return raised, effects;
      }
    }
    RunsExtend(true, before, effects, Marked(offset));
    effects := effects + [Marked(offset)];
    if a.commitError.Some? {
      return a.commitError, effects;
    }
    RunsExtend(true, before, effects, Committed(offset + 1));
    effects := effects + [Committed(offset + 1)];
    raised := None;
  }

  datatype Polled = Nothing | TransportError(text: string) | Received(attempt: Attempt)

  predicate Goes(p: Polled) {
    p.Nothing? || (p.Received? && Passes(p.attempt))
  }

  function Messages(polls: seq<Polled>): nat {
    if polls == [] then 0
    else Messages(polls[..|polls| - 1]) + (if polls[|polls| - 1].Received? then 1 else 0)
  }

  /**
   The workers' loop over what polling returns until the process is asked to stop: it ends early
   exactly at the first transport error or raising message, with every earlier offset committed.
   */
  method PollLoop(start: nat, polls: seq<Polled>) returns (raised: Option<Exception>, effects: seq<Effect>, went: nat)
    requires forall k :: 0 <= k < |polls| && polls[k].Received? ==> Honest(polls[k].attempt.broker)
    ensures IsRun(true, Resumed(start), effects)
    ensures went <= |polls| && forall k :: 0 <= k < went ==> Goes(polls[k])
    ensures raised.None? <==> went == |polls|
    ensures went < |polls| ==> !Goes(polls[went])
    ensures went < |polls| && polls[went].TransportError? ==> raised == Some(OtherError(polls[went].text))
    ensures went < |polls| && polls[went].Received? && Classify(polls[went].attempt) == Transient ==> raised == polls[went].attempt.processError
    ensures Play(true, Resumed(start), effects).committed == start + Messages(polls[..went])
  {
    hide IsRun, Play, Passes;
    effects, went, raised := [], 0, None;
    var position := start;
    ghost var before := Resumed(start);
    EmptyRun(true, before);
    while went < |polls|
      invariant went <= |polls| && forall k :: 0 <= k < went ==> Goes(polls[k])
      invariant position == start + Messages(polls[..went]) && IsRun(true, before, effects)
      invariant var s := Play(true, before, effects); s == Resumed(position).(handled := s.handled, buried := s.buried)
    {
      assert polls[..went + 1][..went] == polls[..went];
      var p := polls[went];
      if p.TransportError? {
        return Some(OtherError(p.text)), effects, went;
      }
      if p.Received? {
        var error, more := HandleMessage(position, p.attempt);
        RunsCompose(true, before, effects, more);
        HistoryIsApart(true, Play(true, before, effects), position, more);
        effects := effects + more;
        if error.Some? {
          return error, effects, went;
        }
        position := position + 1;
      }
      went := went + 1;
    }
  }
}
