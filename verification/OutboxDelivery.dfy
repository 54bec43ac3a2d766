/**
 How often the outbox delivers a row: exactly when a row can be delivered (again), which steps of the
 publishers can lead to a second delivery, and what calls without failures deliver.
 */
module OutboxDelivery {
  import opened Outcomes
  import opened Outbox

  // ----- when a row can be delivered -----

  predicate Held(w: World, id: nat) {
    exists p :: p in w.claims && id in w.claims[p].batch
  }

  /** Unpublished, or in the batch of a live claim. */
  predicate Deliverable(w: World, id: nat) {
    id in w.rows && (!w.rows[id].published || Held(w, id))
  }

  /** The rows other transactions must hold locked for a claim to get this row alone. */
  function Others(w: World, id: nat): set<nat> {
    Available(w.rows, {}) - {id}
  }

  lemma ClaimAlone(w: World, p: nat, id: nat)
    requires id in w.rows && !w.rows[id].published && p !in w.claims
    ensures Enabled(w, ClaimRows(p, [id], Others(w, id)))
  {
    assert Available(w.rows, Others(w, id)) == {id};
    assert |{id}| == 1;
  }

  lemma CanBeDelivered(w: World, id: nat, p: nat) returns (steps: seq<Step>)
    requires Deliverable(w, id) && p !in w.claims
    ensures Play(w, steps).Some? && Play(w, steps).value.topic == w.topic + [id]
  {
    hide IsBatch, Play;
    NoSteps(w);
    if Held(w, id) {
      var q :| q in w.claims && id in w.claims[q].batch;
      PlayExtends(w, [], Deliver(q, id));
      steps := [] + [Deliver(q, id)];
    } else {
      ClaimAlone(w, p, id);
      var claim := ClaimRows(p, [id], Others(w, id));
      PlayExtends(w, [], claim);
      PlayExtends(w, [] + [claim], Deliver(p, id));
      steps := [] + [claim] + [Deliver(p, id)];
    }
  }

  lemma StepLeavesItDone(w: World, step: Step, id: nat)
    requires Enabled(w, step) && id in w.rows && !Deliverable(w, id)
    ensures id in After(w, step).rows && !Deliverable(After(w, step), id)
    ensures !(step.Deliver? && step.id == id)
    ensures multiset(After(w, step).topic)[id] == multiset(w.topic)[id]
  {
    if step.ClaimRows? {
      BatchIsPending(w.rows, step.locked, step.batch);
    }
    hide IsBatch;
    var w' := After(w, step);
    assert w'.rows[id].published;
    forall p | p in w'.claims
      ensures id !in w'.claims[p].batch
    {
      assert p in w.claims ==> w'.claims[p].batch == w.claims[p].batch && id !in w.claims[p].batch;
    }
  }

  /** A published row that no live claim holds is never delivered again and never becomes deliverable. */
  lemma {:induction false} NeverAgain(w: World, steps: seq<Step>, id: nat)
    requires Play(w, steps).Some? && id in w.rows && !Deliverable(w, id)
    ensures var w' := Play(w, steps).value;
            id in w'.rows && !Deliverable(w', id) && multiset(w'.topic)[id] == multiset(w.topic)[id]
    ensures forall k :: 0 <= k < |steps| && steps[k].Deliver? ==> steps[k].id != id
    decreases |steps|
  {
    hide Enabled, After, Deliverable;
    if steps != [] {
      var n := |steps| - 1;
      NeverAgain(w, steps[..n], id);
      StepLeavesItDone(Play(w, steps[..n]).value, steps[n], id);
      assert forall k :: 0 <= k < n ==> steps[k] == steps[..n][k];
    }
  }

  /** A row can be delivered next, by some continuation, if and only if it is unpublished or a live claim holds it. */
  lemma DeliverableExactly(w: World, id: nat, idle: nat)
    requires id in w.rows && idle !in w.claims
    ensures Deliverable(w, id) <==>
            exists steps: seq<Step> :: Play(w, steps).Some? && Play(w, steps).value.topic == w.topic + [id]
  {
    hide Play, Deliverable;
    if Deliverable(w, id) {
      var steps := CanBeDelivered(w, id, idle);
    }
    if steps: seq<Step> :| Play(w, steps).Some? && Play(w, steps).value.topic == w.topic + [id] {
      assert multiset(w.topic + [id])[id] == multiset(w.topic)[id] + 1;
      if !Deliverable(w, id) {
        NeverAgain(w, steps, id);
      }
    }
  }

  // ----- two publishers on one row -----

  /** A claim on the row alone. */
  function ClaimIt(w: World, p: nat, id: nat): Step {
    ClaimRows(p, [id], Others(w, id))
  }

  lemma ClaimBoth(w: World, id: nat, p: nat, q: nat) returns (w': World)
    requires id in w.rows && !w.rows[id].published && p !in w.claims && q !in w.claims && p != q
    ensures Play(w, [ClaimIt(w, p, id)] + [ClaimIt(w, q, id)]) == Some(w')
    ensures w'.topic == w.topic && w'.claims == w.claims[p := Claim([id], {})][q := Claim([id], {})]
  {
    hide Play, IsBatch;
    NoSteps(w);
    ClaimAlone(w, p, id);
    PlayExtends(w, [], ClaimIt(w, p, id));
    assert [] + [ClaimIt(w, p, id)] == [ClaimIt(w, p, id)];
    var w1 := After(w, ClaimIt(w, p, id));
    assert Available(w1.rows, {}) == Available(w.rows, {});
    ClaimAlone(w1, q, id);
    PlayExtends(w, [ClaimIt(w, p, id)], ClaimIt(w, q, id));
    w' := After(w1, ClaimIt(w, q, id));
  }

  lemma FinishIt(w: World, p: nat, id: nat) returns (w': World)
    requires p in w.claims && w.claims[p] == Claim([id], {})
    ensures Play(w, [Deliver(p, id)] + [Confirm(p)]) == Some(w')
    ensures w'.topic == w.topic + [id] && w'.claims == w.claims - {p}
  {
    hide Play, IsBatch;
    NoSteps(w);
    PlayExtends(w, [], Deliver(p, id));
    assert [] + [Deliver(p, id)] == [Deliver(p, id)];
    PlayExtends(w, [Deliver(p, id)], Confirm(p));
    w' := After(After(w, Deliver(p, id)), Confirm(p));
  }

  function OverlapSteps(w: World, id: nat, p: nat, q: nat): seq<Step> {
    [ClaimIt(w, p, id)] + [ClaimIt(w, q, id)] + ([Deliver(p, id)] + [Confirm(p)]) + ([Deliver(q, id)] + [Confirm(q)])
  }

  /** Any two idle publishers that both claim a pending row before either confirms both deliver it. */
  lemma OverlapDeliversTwice(w: World, id: nat, p: nat, q: nat)
    requires id in w.rows && !w.rows[id].published && p !in w.claims && q !in w.claims && p != q
    ensures Play(w, OverlapSteps(w, id, p, q)).Some?
    ensures Play(w, OverlapSteps(w, id, p, q)).value.topic == w.topic + [id, id]
    ensures Play(w, OverlapSteps(w, id, p, q)).value.claims == w.claims
  {
    hide Play;
    var w1 := ClaimBoth(w, id, p, q);
    var w2 := FinishIt(w1, p, id);
    var w3 := FinishIt(w2, q, id);
    var both := [ClaimIt(w, p, id)] + [ClaimIt(w, q, id)];
    PlayComposes(w, both, [Deliver(p, id)] + [Confirm(p)]);
    PlayComposes(w, both + ([Deliver(p, id)] + [Confirm(p)]), [Deliver(q, id)] + [Confirm(q)]);
    assert w.topic + [id] + [id] == w.topic + [id, id];
    assert w3.claims == w.claims;
  }

  // ----- which steps can lead to a second delivery -----

  /** A claim on rows that nobody holds and the broker never took; a delivery not yet made under its claim. */
  predicate Careful(w: World, step: Step) {
    match step
    case ClaimRows(_, batch, _) => forall k :: 0 <= k < |batch| ==> batch[k] !in w.topic && !Held(w, batch[k])
    case Deliver(p, id) => p in w.claims ==> id !in w.claims[p].sent
    case _ => true
  }

  /** No row twice in the topic, no row in two claims, and a held row is in the topic exactly when its claim has sent it. */
  predicate Tidy(w: World) {
    && Distinct(w.topic)
    && (forall p, q, id | p in w.claims && q in w.claims && p != q && id in w.claims[p].batch :: id !in w.claims[q].batch)
    && (forall p, id | p in w.claims && id in w.claims[p].batch :: id in w.topic <==> id in w.claims[p].sent)
  }

  lemma AppendDistinct(s: seq<nat>, x: nat)
    ensures Distinct(s + [x]) <==> Distinct(s) && x !in s
  {
    if Distinct(s + [x]) {
      forall i, j | 0 <= i < j < |s|
        ensures s[i] != s[j]
      {
        assert (s + [x])[i] == s[i] && (s + [x])[j] == s[j];
      }
      forall i | 0 <= i < |s|
        ensures s[i] != x
      {
        assert (s + [x])[i] == s[i] && (s + [x])[|s|] == x;
      }
    }
  }

  lemma CarefulKeepsTidy(w: World, step: Step)
    requires Tidy(w) && Enabled(w, step) && Careful(w, step)
    ensures Tidy(After(w, step))
  {
    hide IsBatch, Distinct;
    if step.Deliver? {
      AppendDistinct(w.topic, step.id);
    }
  }

  /** Every step is careful where it is taken. */
  predicate AllCareful(w: World, steps: seq<Step>) {
    steps == [] ||
    (AllCareful(w, steps[..|steps| - 1]) && Play(w, steps[..|steps| - 1]).Some? &&
     Careful(Play(w, steps[..|steps| - 1]).value, steps[|steps| - 1]))
  }

  lemma {:induction false} CarefulStaysTidy(w: World, steps: seq<Step>)
    requires Tidy(w) && Play(w, steps).Some? && AllCareful(w, steps)
    ensures Tidy(Play(w, steps).value)
    decreases |steps|
  {
    hide Enabled, After, Careful, Tidy;
    if steps != [] {
      CarefulStaysTidy(w, steps[..|steps| - 1]);
      CarefulKeepsTidy(Play(w, steps[..|steps| - 1]).value, steps[|steps| - 1]);
    }
  }

  /** A run of careful steps delivers each row at most once. */
  lemma CarefulRunsDeliverOnce(steps: seq<Step>)
    requires Play(START, steps).Some? && AllCareful(START, steps)
    ensures Distinct(Play(START, steps).value.topic)
  {
    hide Play, AllCareful;
    assert Tidy(START);
    CarefulStaysTidy(START, steps);
  }

  /** Deliveries only, each claim sending a row at most once more: what a publisher that has claimed will do. */
  predicate FreshDeliveries(w: World, steps: seq<Step>) {
    (forall k :: 0 <= k < |steps| ==> steps[k].Deliver?) && Play(w, steps).Some? && AllCareful(w, steps)
  }

  ghost predicate CanRepeat(w: World) {
    exists steps: seq<Step> :: FreshDeliveries(w, steps) && !Distinct(Play(w, steps).value.topic)
  }

  lemma CarefulExtends(w: World, steps: seq<Step>, step: Step)
    requires Play(w, steps).Some? && AllCareful(w, steps) && Careful(Play(w, steps).value, step)
    ensures AllCareful(w, steps + [step])
  {
    hide Play, Careful;
    assert (steps + [step])[..|steps + [step]| - 1] == steps;
  }

  lemma OneFresh(w: World, p: nat, id: nat)
    requires Enabled(w, Deliver(p, id)) && id !in w.claims[p].sent
    ensures FreshDeliveries(w, [Deliver(p, id)]) && Play(w, [Deliver(p, id)]) == Some(After(w, Deliver(p, id)))
  {
    hide Play, Enabled, After;
    NoSteps(w);
    PlayExtends(w, [], Deliver(p, id));
    assert [] + [Deliver(p, id)] == [Deliver(p, id)];
    CarefulExtends(w, [], Deliver(p, id));
  }

  lemma TwoFresh(w: World, p: nat, q: nat, id: nat)
    requires p != q && Enabled(w, Deliver(p, id)) && Enabled(w, Deliver(q, id)) && id !in w.claims[p].sent && id !in w.claims[q].sent
    ensures CanRepeat(w)
  {
    hide Distinct, Play;
    var first, second := Deliver(p, id), Deliver(q, id);
    OneFresh(w, p, id);
    PlayExtends(w, [first], second);
    CarefulExtends(w, [first], second);
    var steps := [first] + [second];
    var w' := Play(w, steps).value;
    AppendDistinct(w.topic + [id], id);
    assert w'.topic == w.topic + [id] + [id];
    assert FreshDeliveries(w, steps);
  }

  lemma TakenOnceMore(w: World, p: nat, id: nat)
    requires Enabled(w, Deliver(p, id)) && id !in w.claims[p].sent && id in w.topic
    ensures CanRepeat(w)
  {
    hide Distinct;
    OneFresh(w, p, id);
    AppendDistinct(w.topic, id);
  }

  lemma AlreadyRepeated(w: World)
    requires !Distinct(w.topic)
    ensures CanRepeat(w)
  {
    NoSteps(w);
    assert FreshDeliveries(w, []);
  }

  lemma CarelessCanRepeat(w: World, step: Step)
    requires Tidy(w) && Enabled(w, step) && !Careful(w, step)
    ensures CanRepeat(After(w, step))
  {
    hide Distinct, IsBatch, CanRepeat;
    var w' := After(w, step);
    if step.Deliver? {
      AppendDistinct(w.topic, step.id);
      AlreadyRepeated(w');
    } else {
      var k :| 0 <= k < |step.batch| && !(step.batch[k] !in w.topic && !Held(w, step.batch[k]));
      var id, p := step.batch[k], step.publisher;
      if id in w.topic {
        TakenOnceMore(w', p, id);
      } else {
        var q :| q in w.claims && id in w.claims[q].batch;
        TwoFresh(w', p, q, id);
      }
    }
  }

  /**
   In a tidy world a step is careful if and only if the deliveries that the claims then leave to be made,
   each once, cannot deliver a row twice.
   */
  lemma CarefulExactly(w: World, step: Step)
    requires Tidy(w) && Enabled(w, step)
    ensures Careful(w, step) <==> !CanRepeat(After(w, step))
  {
    hide Enabled, After, Careful, Tidy, Distinct, Play, AllCareful;
    if Careful(w, step) {
      CarefulKeepsTidy(w, step);
      forall steps: seq<Step> | FreshDeliveries(After(w, step), steps)
        ensures Distinct(Play(After(w, step), steps).value.topic)
      {
        CarefulStaysTidy(After(w, step), steps);
        TidyIsDistinct(Play(After(w, step), steps).value);
      }
    } else {
      CarelessCanRepeat(w, step);
    }
  }

  lemma TidyIsDistinct(w: World)
    requires Tidy(w)
    ensures Distinct(w.topic)
  {
  }

  // ----- calls without failures -----

  function SentAll(c: Claim, ids: seq<nat>): Claim {
    c.(sent := c.sent + set id | id in ids)
  }

  lemma {:induction false} DeliversAll(w: World, p: nat, ids: seq<nat>)
    requires p in w.claims && forall k :: 0 <= k < |ids| ==> ids[k] in w.claims[p].batch
    ensures Play(w, Deliveries(p, ids)) == Some(w.(topic := w.topic + ids, claims := w.claims[p := SentAll(w.claims[p], ids)]))
    decreases |ids|
  {
    hide Play, SentAll, Enabled, After;
    SentAllStep(w.claims[p], ids);
    if ids == [] {
      NoSteps(w);
      assert w.topic + [] == w.topic && w.claims[p := w.claims[p]] == w.claims;
    } else {
      var init, last := ids[..|ids| - 1], ids[|ids| - 1];
      DeliversAll(w, p, init);
      var now := w.(topic := w.topic + init, claims := w.claims[p := SentAll(w.claims[p], init)]);
      DeliverNext(now, p, last);
      PlayExtends(w, Deliveries(p, init), Deliver(p, last));
      assert w.topic + init + [last] == w.topic + ids;
      assert now.claims[p := SentAll(w.claims[p], ids)] == w.claims[p := SentAll(w.claims[p], ids)];
    }
  }

  lemma SentAllStep(c: Claim, ids: seq<nat>)
    ensures SentAll(c, ids).batch == c.batch
    ensures ids == [] ==> SentAll(c, ids) == c
    ensures ids != [] ==> SentAll(c, ids) == SentAll(c, ids[..|ids| - 1]).(sent := SentAll(c, ids[..|ids| - 1]).sent + {ids[|ids| - 1]})
  {
    if ids != [] {
      assert ids == ids[..|ids| - 1] + [ids[|ids| - 1]];
    }
  }

  lemma DeliverNext(w: World, p: nat, id: nat)
    requires p in w.claims && id in w.claims[p].batch
    ensures Enabled(w, Deliver(p, id))
    ensures After(w, Deliver(p, id)) ==
            w.(topic := w.topic + [id], claims := w.claims[p := w.claims[p].(sent := w.claims[p].sent + {id})])
  {
  }

  /** One call: exactly its batch reaches the broker, in order, and is published; no claim is left. */
  lemma CallPublishesItsBatch(w: World, p: nat, batch: seq<nat>)
    requires p !in w.claims && IsBatch(w.rows, {}, batch)
    ensures Play(w, CallSteps(p, batch, {})) == Some(World(Called(w.rows, batch), w.topic + batch, w.claims))
  {
    hide IsBatch, Play, Deliveries;
    var claim := ClaimRows(p, batch, {});
    NoSteps(w);
    PlayExtends(w, [], claim);
    assert [] + [claim] == [claim];
    var w1 := After(w, claim);
    DeliversAll(w1, p, batch);
    PlayComposes(w, [claim], Deliveries(p, batch));
    PlayExtends(w, [claim] + Deliveries(p, batch), Confirm(p));
    assert w1.claims[p := SentAll(w1.claims[p], batch)] - {p} == w.claims;
  }

  /** The calls one after another. */
  function Calls(p: nat, batches: seq<seq<nat>>): seq<Step> {
    if batches == [] then [] else Calls(p, batches[..|batches| - 1]) + CallSteps(p, batches[|batches| - 1], {})
  }

  /**
   One publisher without failures: k calls extend the topic by exactly the oldest 100k pending rows (or all
   of them, when there are fewer), each once and in order of age, publish those and nothing else.
   */
  lemma {:induction false} CallsPublishTheOldest(w: World, p: nat, batches: seq<seq<nat>>)
    requires AreCalls(w.rows, batches) && p !in w.claims
    ensures Play(w, Calls(p, batches)) == Some(World(AfterCalls(w.rows, batches), w.topic + Flatten(batches), w.claims))
    ensures OldestFirst(w.rows, Flatten(batches))
    ensures var n := |Available(w.rows, {})|;
            |Flatten(batches)| == if n < 100 * |batches| then n else 100 * |batches|
    ensures forall id :: id in w.rows ==>
      (AfterCalls(w.rows, batches)[id].published <==> w.rows[id].published || id in Flatten(batches))
    decreases |batches|
  {
    hide IsBatch, OldestFirst, Play, CallSteps, Called;
    CallsTakeTheOldest(w.rows, batches);
    if batches == [] {
      NoSteps(w);
      assert w.topic + [] == w.topic;
    } else {
      var init, batch := batches[..|batches| - 1], batches[|batches| - 1];
      CallsPublishTheOldest(w, p, init);
      var now := World(AfterCalls(w.rows, init), w.topic + Flatten(init), w.claims);
      CallPublishesItsBatch(now, p, batch);
      PlayComposes(w, Calls(p, init), CallSteps(p, batch, {}));
      assert w.topic + Flatten(init) + batch == w.topic + Flatten(batches);
    }
  }
}
