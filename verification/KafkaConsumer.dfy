/** Go: kafkautil's consumer group handler. */
module KafkaConsumer {
  import opened Outcomes
  import opened AtLeastOnce

  /** An error value: Unwrap shows its cause, if it has one. */
  datatype Error = Plain(text: string) | PermanentError(cause: Option<Error>) | Wrapped(text: string, inner: Error)

  function Unwrap(e: Error): Option<Error> {
    match e
    case Plain(_) => None
    case PermanentError(cause) => cause
    case Wrapped(_, inner) => Some(inner)
  }

  /** The chain errors.As walks. */
  function Chain(e: Error): (r: seq<Error>)
    ensures |r| > 0 && r[0] == e
    ensures forall k :: 0 <= k < |r| - 1 ==> Unwrap(r[k]) == Some(r[k + 1])
    ensures Unwrap(r[|r| - 1]).None?
  {
    match e
    case Plain(_) => [e]
    case PermanentError(cause) => [e] + (if cause.Some? then Chain(cause.value) else [])
    case Wrapped(_, inner) => [e] + Chain(inner)
  }

  predicate IsPermanent(err: Option<Error>) {
    err.Some? && exists k :: 0 <= k < |Chain(err.value)| && Chain(err.value)[k].PermanentError?
  }

  /** Wrapping an error any number of times neither makes nor hides a permanent failure. */
  lemma WrappingKeepsTheClass(text: string, e: Error)
    ensures IsPermanent(Some(Wrapped(text, e))) <==> IsPermanent(Some(e))
    ensures IsPermanent(Some(PermanentError(Some(e)))) && !IsPermanent(Some(Plain(text)))
  {
    var outer := Chain(Wrapped(text, e));
    assert outer == [Wrapped(text, e)] + Chain(e);
    if IsPermanent(Some(e)) {
      var k :| 0 <= k < |Chain(e)| && Chain(e)[k].PermanentError?;
      assert outer[k + 1].PermanentError?;
    }
    assert Chain(PermanentError(Some(e)))[0].PermanentError?;
  }

  /** The error type a dead letter names: the end of the chain. */
  method RootCause(err: Error) returns (r: Error)
    ensures r == Chain(err)[|Chain(err)| - 1]
  {
    r := err;
    while Unwrap(r).Some?
      invariant Chain(err)[|Chain(err)| - 1] == Chain(r)[|Chain(r)| - 1]
      decreases r
    {
      r := Unwrap(r).value;
    }
  }

  /** The marks of one session; sarama only ever moves a mark forward. */
  class Session {
    var marked: nat

    constructor (start: nat)
      ensures marked == start
    {
      marked := start;
    }

    method MarkMessage(offset: nat)
      modifies this
      ensures marked == if offset + 1 > old(marked) then offset + 1 else old(marked)
    {
      if offset + 1 > marked {
        marked := offset + 1;
      }
    }
  }

  /**
   What one turn of the loop meets: the context ends, the channel closes, or the next message comes
   with the error its handler returns and the error its dead letter, should it get one, returns.
   */
  datatype Turn = ContextDone | ChannelClosed | Message(handlerError: Option<Error>, publishError: Option<Error>)

  datatype ClaimEnd = Waiting | Cancelled | Drained | HandlerFailed(error: Error) | DlqFailed(error: Error)

  datatype DlqConfig = DlqConfig(producer: bool, origin: string)

  predicate Usable(dlq: Option<DlqConfig>) {
    dlq.Some? && dlq.value.producer
  }

  function Classify(dlq: Option<DlqConfig>, t: Turn): Verdict
    requires t.Message?
  {
    if t.handlerError.None? then Success else if IsPermanent(t.handlerError) then Poison else Transient
  }

  /** A message the loop can get past. */
  predicate Passes(dlq: Option<DlqConfig>, t: Turn) {
    t.Message? && (t.handlerError.None? || (IsPermanent(t.handlerError) && Usable(dlq) && t.publishError.None?))
  }

  /** The claim has just marked everything below its position. */
  predicate BetweenMessages(s: State) {
    s.phase == Ready && s.marked == s.position
  }

  const NoProducer: Error := Plain("kafkautil: dlq producer not configured")

  /** What a claim that ends with an error returns: the handler's own error, or the publishing error with it in its chain. */
  predicate ReturnsError(dlq: Option<DlqConfig>, t: Turn, end: ClaimEnd) {
    match end
    case HandlerFailed(error) => t.Message? && t.handlerError == Some(error)
    case DlqFailed(error) =>
      t.Message? && dlq.Some? && Unwrap(error) == (if dlq.value.producer then t.publishError else Some(NoProducer)) != None
    case _ => true
  }

  method Publish(dlq: DlqConfig, publishError: Option<Error>) returns (err: Option<Error>)
    ensures err.None? <==> dlq.producer && publishError.None?
    ensures dlq.producer ==> err == publishError
    ensures !dlq.producer ==> err == Some(NoProducer)
  {
    if !dlq.producer {
      return Some(NoProducer);
    }
    return publishError;
  }

  /**
   One claim over the turns it meets, from the offset it resumes at. It gets past messages up to the
   first it cannot pass, marks exactly those, and everything it does is a run of the protocol.
   */
  method ConsumeClaim(dlq: Option<DlqConfig>, session: Session, turns: seq<Turn>)
    returns (end: ClaimEnd, effects: seq<Effect>, passed: nat)
    modifies session
    ensures var s := Play(dlq.Some?, Resumed(old(session.marked)), effects);
            && IsRun(dlq.Some?, Resumed(old(session.marked)), effects)
            && session.marked == s.marked == old(session.marked) + passed && s.committed == old(session.marked)
            && (end.HandlerFailed? || end.DlqFailed? <==> s.phase == Stopped)
    ensures passed <= |turns| && forall k :: 0 <= k < passed ==> Passes(dlq, turns[k])
    ensures end.Waiting? <==> passed == |turns|
    ensures passed < |turns| ==> !Passes(dlq, turns[passed])
    ensures end.Cancelled? <==> passed < |turns| && turns[passed].ContextDone?
    ensures end.Drained? <==> passed < |turns| && turns[passed].ChannelClosed?
    ensures end.HandlerFailed? <==>
            passed < |turns| && turns[passed].Message? && !(dlq.Some? && IsPermanent(turns[passed].handlerError))
    ensures passed < |turns| ==> ReturnsError(dlq, turns[passed], end)
  {
    hide IsPermanent, Play, IsRun;
    effects, passed, end := [], 0, Waiting;
    ghost var start, before := session.marked, Resumed(session.marked);
    EmptyRun(dlq.Some?, before);
    while passed < |turns|
      invariant passed <= |turns| && forall k :: 0 <= k < passed ==> Passes(dlq, turns[k])
      invariant IsRun(dlq.Some?, before, effects) && BetweenMessages(Play(dlq.Some?, before, effects))
      invariant session.marked == Play(dlq.Some?, before, effects).marked == start + passed
      invariant Play(dlq.Some?, before, effects).committed == start
      invariant end.Waiting?
    {
      var turn := turns[passed];
      if turn.ContextDone? {
        return Cancelled, effects, passed;
      } else if turn.ChannelClosed? {
        return Drained, effects, passed;
      }
      var offset := session.marked;
      var err := turn.handlerError;
      RunsExtend(dlq.Some?, before, effects, Processed(offset, Classify(dlq, turn)));
      effects := effects + [Processed(offset, Classify(dlq, turn))];
      if err.Some? {
        if dlq.None? || !IsPermanent(err) {
          return HandlerFailed(err.value), effects, passed;
        }
        var publishErr := Publish(dlq.value, turn.publishError);
        RunsExtend(true, before, effects, Buried(offset, publishErr.None?));
        effects := effects + [Buried(offset, publishErr.None?)];
        if publishErr.Some? {
          return DlqFailed(Wrapped("publish permanent failure to dlq topic", publishErr.value)), effects, passed;
        }
      }
      session.MarkMessage(offset);
      RunsExtend(dlq.Some?, before, effects, Marked(offset));
      effects := effects + [Marked(offset)];
      passed := passed + 1;
    }
  }
}
