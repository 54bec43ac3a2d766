/**
 The consuming side of one partition, as the Go consumer group and the Python workers run it: a
 message is processed; a permanent failure is buried in the dead-letter topic and that is confirmed;
 only then is its offset marked; marks are committed; after a crash, a rebalance or a failed claim
 reading resumes at the committed offset.
 */
module AtLeastOnce {
  datatype Verdict = Success | Poison | Transient

  /** What can be observed of a consumer, and what can happen to it. */
  datatype Effect =
    | Processed(offset: nat, verdict: Verdict)
    | Buried(offset: nat, confirmed: bool)
    | Marked(offset: nat)
    | Committed(upTo: nat)
    | Restarted

  /** Where the consumer stands with the message at its position. */
  datatype Phase = Ready | ToBury | ToMark | Stopped

  /** `handled` and `buried` are history: offsets processed with success, and offsets with a confirmed dead letter. */
  datatype State = State(position: nat, marked: nat, committed: nat, phase: Phase, handled: set<nat>, buried: set<nat>)

  const START: State := State(0, 0, 0, Ready, {}, {})

  /** The effects the code allows next. Without a dead-letter topic every failure stops the claim. */
  predicate Enabled(dlq: bool, s: State, e: Effect) {
    match e
    case Processed(offset, _) => s.phase == Ready && offset == s.position
    case Buried(offset, _) => dlq && s.phase == ToBury && offset == s.position
    case Marked(offset) => s.phase == ToMark && offset == s.position
    case Committed(upTo) => s.committed <= upTo <= s.marked
    case Restarted => true
  }

  function After(dlq: bool, s: State, e: Effect): State {
    match e
    case Processed(offset, Success) => s.(phase := ToMark, handled := s.handled + {offset})
    case Processed(_, Poison) => s.(phase := if dlq then ToBury else Stopped)
    case Processed(_, Transient) => s.(phase := Stopped)
    case Buried(offset, true) => s.(phase := ToMark, buried := s.buried + {offset})
    case Buried(_, false) => s.(phase := Stopped)
    case Marked(offset) => s.(phase := Ready, position := offset + 1, marked := offset + 1)
    case Committed(upTo) => s.(committed := upTo)
    case Restarted => s.(phase := Ready, position := s.committed, marked := s.committed)
  }

  function Play(dlq: bool, s: State, effects: seq<Effect>): State {
    if effects == [] then s
    else After(dlq, Play(dlq, s, effects[..|effects| - 1]), effects[|effects| - 1])
  }

  /** Every effect is one the code allows at that point. */
  predicate IsRun(dlq: bool, s: State, effects: seq<Effect>) {
    effects != [] ==>
      && IsRun(dlq, s, effects[..|effects| - 1])
      && Enabled(dlq, Play(dlq, s, effects[..|effects| - 1]), effects[|effects| - 1])
  }

  // ----- safety -----

  predicate Settled(s: State, offset: nat) {
    offset in s.handled || offset in s.buried
  }

  /** Nothing at or below a mark is unsettled, and a commit never overtakes a mark. */
  predicate Safe(dlq: bool, s: State) {
    && s.committed <= s.marked == s.position
    && (forall offset | 0 <= offset < s.marked :: Settled(s, offset))
    && (s.phase == ToMark ==> Settled(s, s.position))
    && (!dlq ==> s.buried == {})
  }

  lemma StepIsSafe(dlq: bool, s: State, e: Effect)
    requires Safe(dlq, s) && Enabled(dlq, s, e)
    ensures Safe(dlq, After(dlq, s, e))
    ensures s.handled <= After(dlq, s, e).handled && s.buried <= After(dlq, s, e).buried
    ensures s.committed <= After(dlq, s, e).committed
  {
    var s' := After(dlq, s, e);
    forall offset | 0 <= offset < s'.marked
      ensures Settled(s', offset)
    {
      assert offset < s.marked ==> Settled(s, offset);
    }
  }

  /** Where a consumer starts after a restart, with an account of its own. */
  function Resumed(offset: nat): State {
    State(offset, offset, offset, Ready, {}, {})
  }

  /** What a consumer may do does not depend on what was settled before it started. */
  lemma {:induction false} HistoryIsApart(dlq: bool, s: State, offset: nat, effects: seq<Effect>)
    requires s == Resumed(offset).(handled := s.handled, buried := s.buried)
    ensures IsRun(dlq, s, effects) <==> IsRun(dlq, Resumed(offset), effects)
    ensures var now := Play(dlq, Resumed(offset), effects);
            Play(dlq, s, effects) == now.(handled := s.handled + now.handled, buried := s.buried + now.buried)
    decreases |effects|
  {
    if effects == [] {
      assert s.handled + {} == s.handled && s.buried + {} == s.buried;
    } else {
      HistoryIsApart(dlq, s, offset, effects[..|effects| - 1]);
    }
  }

  /** A claim that starts at the committed offset after a restart continues the run, whatever happened before. */
  lemma LivesFollowOneAnother(dlq: bool, life: seq<Effect>, next: seq<Effect>)
    requires IsRun(dlq, START, life) && IsRun(dlq, Resumed(Play(dlq, START, life).committed), next)
    ensures IsRun(dlq, START, life + [Restarted] + next)
    ensures Play(dlq, START, life + [Restarted] + next).committed ==
            Play(dlq, Resumed(Play(dlq, START, life).committed), next).committed
  {
    hide IsRun, Play;
    var offset := Play(dlq, START, life).committed;
    RunsExtend(dlq, START, life, Restarted);
    RunsCompose(dlq, START, life + [Restarted], next);
    HistoryIsApart(dlq, Play(dlq, START, life + [Restarted]), offset, next);
  }

  /** In every run each offset below the committed one was processed with success or has a confirmed dead letter. */
  lemma {:induction false} CommitIsSafe(dlq: bool, effects: seq<Effect>)
    requires IsRun(dlq, START, effects)
    ensures var s := Play(dlq, START, effects);
            Safe(dlq, s) && forall offset | 0 <= offset < s.committed :: Settled(s, offset)
    decreases |effects|
  {
    hide After, Enabled;
    if effects != [] {
      CommitIsSafe(dlq, effects[..|effects| - 1]);
      StepIsSafe(dlq, Play(dlq, START, effects[..|effects| - 1]), effects[|effects| - 1]);
    }
  }

  predicate Fatal(dlq: bool, e: Effect) {
    (e.Processed? && (e.verdict == Transient || (e.verdict == Poison && !dlq))) || (e.Buried? && !e.confirmed)
  }

  /** After a failure that stops the claim nothing is processed, buried or marked before a restart. */
  lemma {:induction false} NothingAfterFailure(dlq: bool, effects: seq<Effect>, k: nat)
    requires IsRun(dlq, START, effects) && k < |effects| && Fatal(dlq, effects[k])
    requires forall j :: k < j < |effects| ==> effects[j] != Restarted
    ensures Play(dlq, START, effects).phase == Stopped
    ensures forall j :: k < j < |effects| ==> effects[j].Committed?
    decreases |effects|
  {
    var n := |effects| - 1;
    if k < n {
      NothingAfterFailure(dlq, effects[..n], k);
      forall j | k < j < |effects|
        ensures effects[j].Committed?
      {
        assert j < n ==> effects[j] == effects[..n][j];
      }
    }
  }

  /** An offset that never succeeds and is never buried is never committed: the partition waits for it. */
  lemma UnsettledHoldsTheCommit(dlq: bool, effects: seq<Effect>, offset: nat)
    requires IsRun(dlq, START, effects) && !Settled(Play(dlq, START, effects), offset)
    ensures Play(dlq, START, effects).committed <= offset && Play(dlq, START, effects).marked <= offset
  {
    hide IsRun, Play, Settled;
    CommitIsSafe(dlq, effects);
  }

  /** A settlement in the history is an effect of the run. */
  lemma {:induction false} SettledHappened(dlq: bool, effects: seq<Effect>, offset: nat)
    ensures offset in Play(dlq, START, effects).handled <==> Processed(offset, Success) in effects
    ensures offset in Play(dlq, START, effects).buried <==> Buried(offset, true) in effects
    decreases |effects|
  {
    if effects != [] {
      var init, last := effects[..|effects| - 1], effects[|effects| - 1];
      assert effects == init + [last];
      SettledHappened(dlq, init, offset);
    }
  }

  lemma {:induction false} RunsCompose(dlq: bool, s: State, a: seq<Effect>, b: seq<Effect>)
    ensures Play(dlq, s, a + b) == Play(dlq, Play(dlq, s, a), b)
    ensures IsRun(dlq, s, a + b) <==> IsRun(dlq, s, a) && IsRun(dlq, Play(dlq, s, a), b)
    decreases |b|
  {
    hide After, Enabled;
    if b == [] {
      assert a + b == a;
    } else {
      var init := b[..|b| - 1];
      assert (a + b)[..|a + b| - 1] == a + init && (a + b)[|a + b| - 1] == b[|b| - 1];
      RunsCompose(dlq, s, a, init);
    }
  }

  lemma RunsExtend(dlq: bool, s: State, effects: seq<Effect>, e: Effect)
    ensures Play(dlq, s, effects + [e]) == After(dlq, Play(dlq, s, effects), e)
    ensures IsRun(dlq, s, effects + [e]) <==> IsRun(dlq, s, effects) && Enabled(dlq, Play(dlq, s, effects), e)
  {
    assert (effects + [e])[..|effects|] == effects;
  }

  lemma EmptyRun(dlq: bool, s: State)
    ensures Play(dlq, s, []) == s && IsRun(dlq, s, [])
  {
  }
}
