/**
 The transactional outbox: publishers claim the oldest pending rows, deliver them, and mark them
 published; a row is pending until its published_at is set. Several publishers may hold overlapping
 claims, deliver part of a batch, fail or crash.
 */
module Outbox {
  import opened Outcomes

  const BATCH_SIZE: nat := 100

  datatype Row = Row(createdAt: int, published: bool, attempts: nat, lastError: Option<string>)

  type Table = map<nat, Row>

  /** A publisher's claim: its batch, and the rows of it the broker has acknowledged. */
  datatype Claim = Claim(batch: seq<nat>, sent: set<nat>)

  /** The table, everything the broker ever took, and the claims the publishers hold. */
  datatype World = World(rows: Table, topic: seq<nat>, claims: map<nat, Claim>)

  datatype Step =
    | Enqueue(id: nat, createdAt: int)
    | ClaimRows(publisher: nat, batch: seq<nat>, locked: set<nat>)
    | Deliver(publisher: nat, id: nat)
    | Confirm(publisher: nat)
    | Fail(publisher: nat, error: string)
    | Crash(publisher: nat)

  // ----- the query -----

  /** Pending rows that no other transaction holds locked. */
  function Available(rows: Table, locked: set<nat>): (r: set<nat>)
    ensures forall id :: id in r <==> id in rows && !rows[id].published && id !in locked
  {
    set id | id in rows && !rows[id].published && id !in locked
  }

  predicate Distinct(batch: seq<nat>) {
    forall i, j :: 0 <= i < j < |batch| ==> batch[i] != batch[j]
  }

  /** Oldest first. */
  predicate Ordered(rows: Table, batch: seq<nat>)
    requires forall k :: 0 <= k < |batch| ==> batch[k] in rows
  {
    forall i, j :: 0 <= i < j < |batch| ==> rows[batch[i]].createdAt <= rows[batch[j]].createdAt
  }

  /** What pending.lock("FOR UPDATE SKIP LOCKED").limit(100) may return; rows of one age come in any order. */
  predicate IsBatch(rows: Table, locked: set<nat>, batch: seq<nat>) {
    && (forall k :: 0 <= k < |batch| ==> batch[k] in Available(rows, locked))
    && Distinct(batch) && Ordered(rows, batch)
    && |batch| == (if |Available(rows, locked)| < BATCH_SIZE then |Available(rows, locked)| else BATCH_SIZE)
    && forall id, k | id in Available(rows, locked) && id !in batch && 0 <= k < |batch| ::
         rows[batch[k]].createdAt <= rows[id].createdAt
  }

  // ----- the updates -----

  function Attempted(rows: Table, batch: seq<nat>): (r: Table)
    ensures r.Keys == rows.Keys
  {
    map id | id in rows :: if id in batch then rows[id].(attempts := rows[id].attempts + 1) else rows[id]
  }

  function Published(rows: Table, batch: seq<nat>): (r: Table)
    ensures r.Keys == rows.Keys
  {
    map id | id in rows :: if id in batch then rows[id].(published := true, lastError := None) else rows[id]
  }

  function Failed(rows: Table, batch: seq<nat>, error: string): (r: Table)
    ensures r.Keys == rows.Keys
  {
    map id | id in rows ::
      if id in batch then rows[id].(attempts := rows[id].attempts + 1, lastError := Some(error)) else rows[id]
  }

  // ----- the steps -----

  predicate Enabled(w: World, step: Step) {
    match step
    case Enqueue(id, _) => id !in w.rows
    case ClaimRows(p, batch, locked) => p !in w.claims && IsBatch(w.rows, locked, batch)
    case Deliver(p, id) => p in w.claims && id in w.claims[p].batch
    case Confirm(p) => p in w.claims && forall k | 0 <= k < |w.claims[p].batch| :: w.claims[p].batch[k] in w.claims[p].sent
    case Fail(p, _) => p in w.claims
    case Crash(p) => p in w.claims
  }

  function After(w: World, step: Step): World
    requires Enabled(w, step)
  {
    match step
    case Enqueue(id, createdAt) => w.(rows := w.rows[id := Row(createdAt, false, 0, None)])
    case ClaimRows(p, batch, _) => w.(rows := Attempted(w.rows, batch), claims := w.claims[p := Claim(batch, {})])
    case Deliver(p, id) =>
      w.(topic := w.topic + [id], claims := w.claims[p := w.claims[p].(sent := w.claims[p].sent + {id})])
    case Confirm(p) => w.(rows := Published(w.rows, w.claims[p].batch), claims := w.claims - {p})
    case Fail(p, error) => w.(rows := Failed(w.rows, w.claims[p].batch, error), claims := w.claims - {p})
    case Crash(p) => w.(claims := w.claims - {p})
  }

  /** The world after the steps, while each was possible in turn. */
  function Play(w: World, steps: seq<Step>): Option<World> {
    if steps == [] then Some(w)
    else
      match Play(w, steps[..|steps| - 1])
      case None => None
      case Some(now) => if Enabled(now, steps[|steps| - 1]) then Some(After(now, steps[|steps| - 1])) else None
  }

  const START: World := World(map[], [], map[])

  // ----- safety -----

  predicate Sound(w: World) {
    && (forall k :: 0 <= k < |w.topic| ==> w.topic[k] in w.rows)
    && (forall id :: id in w.rows && w.rows[id].published ==> id in w.topic)
    && (forall p :: p in w.claims ==> ClaimSound(w, w.claims[p]))
    && (forall id :: id in w.topic && id in w.rows ==> w.rows[id].attempts > 0)
  }

  predicate ClaimSound(w: World, c: Claim) {
    && (forall k :: 0 <= k < |c.batch| ==> c.batch[k] in w.rows && w.rows[c.batch[k]].attempts > 0)
    && (forall id :: id in c.sent ==> id in c.batch && id in w.topic)
  }

  lemma StepKeepsSound(w: World, step: Step)
    requires Sound(w) && Enabled(w, step)
    ensures Sound(After(w, step))
  {
    hide IsBatch;
    ClaimsStaySound(w, step);
    PublishedWasSent(w, step);
    hide ClaimSound;
  }

  lemma ClaimsStaySound(w: World, step: Step)
    requires Sound(w) && Enabled(w, step)
    ensures forall p :: p in After(w, step).claims ==> ClaimSound(After(w, step), After(w, step).claims[p])
  {
    hide IsBatch;
    var w' := After(w, step);
    if step.ClaimRows? {
      assert IsBatch(w.rows, step.locked, step.batch);
      BatchIsPending(w.rows, step.locked, step.batch);
    }
    forall p | p in w'.claims
      ensures ClaimSound(w', w'.claims[p])
    {
      if p in w.claims {
        assert ClaimSound(w, w.claims[p]);
      }
    }
  }

  lemma PublishedWasSent(w: World, step: Step)
    requires Sound(w) && Enabled(w, step)
    ensures forall id :: id in After(w, step).rows && After(w, step).rows[id].published ==> id in After(w, step).topic
  {
    hide IsBatch, ClaimSound;
    var w' := After(w, step);
    forall id | id in w'.rows && w'.rows[id].published
      ensures id in w'.topic
    {
      if step.Confirm? && id in w.claims[step.publisher].batch {
        var claim := w.claims[step.publisher];
        assert ClaimSound(w, claim) && id in claim.sent;
        SentIsInTopic(w, claim, id);
      }
    }
  }

  lemma SentIsInTopic(w: World, claim: Claim, id: nat)
    requires ClaimSound(w, claim) && id in claim.sent
    ensures id in w.topic
  {
  }

  lemma BatchIsPending(rows: Table, locked: set<nat>, batch: seq<nat>)
    requires IsBatch(rows, locked, batch)
    ensures forall k :: 0 <= k < |batch| ==> batch[k] in rows && !rows[batch[k]].published
  {
  }

  /** No step takes a row away or clears its published_at, and only a publisher that sent the row sets it. */
  lemma RowsOnlyGrow(w: World, step: Step, id: nat)
    requires Enabled(w, step) && id in w.rows
    ensures id in After(w, step).rows && After(w, step).rows[id].createdAt == w.rows[id].createdAt
    ensures w.rows[id].published ==> After(w, step).rows[id].published
    ensures !w.rows[id].published && After(w, step).rows[id].published ==>
              step.Confirm? && id in w.claims[step.publisher].batch && id in w.claims[step.publisher].sent
    ensures w.rows[id].attempts <= After(w, step).rows[id].attempts
  {
    hide IsBatch;
    if step.Confirm? && id in w.claims[step.publisher].batch {
      assert id in w.claims[step.publisher].sent;
    }
  }

  /**
   Under every interleaving of publishers, partial deliveries, failures and crashes: a published row
   was delivered at least once, and a row the broker never took is still pending.
   */
  lemma {:induction false} OutboxIsSafe(steps: seq<Step>)
    requires Play(START, steps).Some?
    ensures Sound(Play(START, steps).value)
    ensures var w := Play(START, steps).value;
            forall id :: id in w.rows && id !in w.topic ==> id in Available(w.rows, {})
    decreases |steps|
  {
    hide Enabled, After, Sound;
    if steps == [] {
      assert Sound(START) by { StartIsSound(); }
    } else {
      var n := |steps| - 1;
      OutboxIsSafe(steps[..n]);
      StepKeepsSound(Play(START, steps[..n]).value, steps[n]);
    }
    SoundMeansPending(Play(START, steps).value);
  }

  lemma StartIsSound()
    ensures Sound(START)
  {
  }

  lemma SoundMeansPending(w: World)
    requires Sound(w)
    ensures forall id :: id in w.rows && id !in w.topic ==> id in Available(w.rows, {})
  {
  }

  /** How often a row was claimed, and how often a claim on it failed in an orderly way. */
  function Tries(steps: seq<Step>, id: nat): (r: nat)
    requires Play(START, steps).Some?
  {
    if steps == [] then 0
    else
      var before, last := Play(START, steps[..|steps| - 1]).value, steps[|steps| - 1];
      Tries(steps[..|steps| - 1], id) +
      if last.ClaimRows? && id in last.batch then 1
      else if last.Fail? && last.publisher in before.claims && id in before.claims[last.publisher].batch then 1
      else 0
  }

  /** publish_attempts counts claims and failures: an orderly failure counts its row twice. */
  lemma {:induction false} AttemptsCountTries(steps: seq<Step>, id: nat)
    requires Play(START, steps).Some?
    ensures var rows := Play(START, steps).value.rows;
            (if id in rows then rows[id].attempts else 0) == Tries(steps, id)
    decreases |steps|
  {
    hide IsBatch, Available;
    if steps != [] {
      var n := |steps| - 1;
      AttemptsCountTries(steps[..n], id);
      OutboxIsSafe(steps[..n]);
      var w := Play(START, steps[..n]).value;
      if steps[n].ClaimRows? {
        BatchIsPending(w.rows, steps[n].locked, steps[n].batch);
      } else if steps[n].Fail? {
        assert ClaimSound(w, w.claims[steps[n].publisher]);
      }
    }
  }

  /** How the latest orderly end of a claim on the row ended: its message, or nothing after a success or before any. */
  function LatestError(steps: seq<Step>, id: nat): Option<string>
    requires Play(START, steps).Some?
  {
    if steps == [] then None
    else
      var before, last := Play(START, steps[..|steps| - 1]).value, steps[|steps| - 1];
      if (last.Fail? || last.Confirm?) && last.publisher in before.claims && id in before.claims[last.publisher].batch
      then (if last.Fail? then Some(last.error) else None)
      else LatestError(steps[..|steps| - 1], id)
  }

  /** In every run, last_error of a row is how the latest orderly end of a claim on it ended. */
  lemma {:induction false} ErrorsFollowTheLatestEnd(steps: seq<Step>, id: nat)
    requires Play(START, steps).Some?
    ensures var rows := Play(START, steps).value.rows;
            (if id in rows then rows[id].lastError else None) == LatestError(steps, id)
    decreases |steps|
  {
    hide IsBatch, Available;
    if steps != [] {
      var n := |steps| - 1;
      ErrorsFollowTheLatestEnd(steps[..n], id);
      OutboxIsSafe(steps[..n]);
      var w := Play(START, steps[..n]).value;
      if steps[n].Fail? || steps[n].Confirm? {
        assert ClaimSound(w, w.claims[steps[n].publisher]);
      }
    }
  }

  lemma NoSteps(w: World)
    ensures Play(w, []) == Some(w)
  {
  }

  lemma {:induction false} PlayComposes(w: World, a: seq<Step>, b: seq<Step>)
    requires Play(w, a).Some?
    ensures Play(w, a + b) == Play(Play(w, a).value, b)
    decreases |b|
  {
    hide Enabled, After;
    if b == [] {
      assert a + b == a;
    } else {
      var init := b[..|b| - 1];
      assert (a + b)[..|a + b| - 1] == a + init && (a + b)[|a + b| - 1] == b[|b| - 1];
      PlayComposes(w, a, init);
    }
  }

  lemma PlayExtends(w: World, steps: seq<Step>, step: Step)
    requires Play(w, steps).Some? && Enabled(Play(w, steps).value, step)
    ensures Play(w, steps + [step]) == Some(After(Play(w, steps).value, step))
  {
    hide Enabled, After;
    assert (steps + [step])[..|steps + [step]| - 1] == steps;
  }

  // ----- progress -----

  /** What one call without failures does to the table. */
  function Called(rows: Table, batch: seq<nat>): (r: Table)
    ensures r.Keys == rows.Keys
  {
    Published(Attempted(rows, batch), batch)
  }

  function AfterCalls(rows: Table, batches: seq<seq<nat>>): (r: Table)
    ensures r.Keys == rows.Keys
  {
    if batches == [] then rows else Called(AfterCalls(rows, batches[..|batches| - 1]), batches[|batches| - 1])
  }

  /** Each batch is one that the query may return when its call is made and no other publisher is at work. */
  predicate AreCalls(rows: Table, batches: seq<seq<nat>>) {
    batches != [] ==>
      && AreCalls(rows, batches[..|batches| - 1])
      && IsBatch(AfterCalls(rows, batches[..|batches| - 1]), {}, batches[|batches| - 1])
  }

  function Flatten(batches: seq<seq<nat>>): seq<nat> {
    if batches == [] then [] else Flatten(batches[..|batches| - 1]) + batches[|batches| - 1]
  }

  /** The rows are pending, distinct, in order of age, and no older row is left pending. */
  ghost predicate OldestFirst(rows: Table, sent: seq<nat>) {
    && (forall k :: 0 <= k < |sent| ==> sent[k] in Available(rows, {}))
    && Distinct(sent) && Ordered(rows, sent)
    && forall id, k :: id in Available(rows, {}) && id !in sent && 0 <= k < |sent| ==> rows[sent[k]].createdAt <= rows[id].createdAt
  }

  lemma {:induction false} AfterCallsIs(rows: Table, batches: seq<seq<nat>>)
    ensures forall id :: id in rows ==> AfterCalls(rows, batches)[id].createdAt == rows[id].createdAt
    ensures forall id :: id in rows ==>
      (AfterCalls(rows, batches)[id].published <==> rows[id].published || id in Flatten(batches))
    decreases |batches|
  {
    if batches != [] {
      AfterCallsIs(rows, batches[..|batches| - 1]);
    }
  }

  lemma {:induction false} DistinctCount(s: seq<nat>, ids: set<nat>)
    requires Distinct(s) && forall id :: id in ids <==> id in s
    ensures |ids| == |s|
    decreases |s|
  {
    if s == [] {
      assert ids == {};
    } else {
      var init, last := s[..|s| - 1], s[|s| - 1];
      assert s == init + [last];
      assert last !in init;
      DistinctCount(init, ids - {last});
    }
  }

  lemma AppendBatch(rows: Table, sent: seq<nat>, now: Table, batch: seq<nat>)
    requires OldestFirst(rows, sent) && now.Keys == rows.Keys
    requires forall id :: id in rows ==> now[id].createdAt == rows[id].createdAt
    requires forall id :: id in rows ==> (now[id].published <==> rows[id].published || id in sent)
    requires IsBatch(now, {}, batch)
    ensures OldestFirst(rows, sent + batch)
  {
    var all := sent + batch;
    forall k | 0 <= k < |batch|
      ensures batch[k] in Available(rows, {}) && batch[k] !in sent
    {
      assert batch[k] in Available(now, {});
    }
    forall i, j | 0 <= i < j < |all|
      ensures all[i] != all[j] && all[i] in rows && all[j] in rows && rows[all[i]].createdAt <= rows[all[j]].createdAt
    {
      if j < |sent| {
        assert all[i] == sent[i] && all[j] == sent[j];
      } else if i < |sent| {
        assert all[i] == sent[i] && all[j] == batch[j - |sent|];
      } else {
        assert all[i] == batch[i - |sent|] && all[j] == batch[j - |sent|];
      }
    }
    forall id, k | id in Available(rows, {}) && id !in all && 0 <= k < |all|
      ensures rows[all[k]].createdAt <= rows[id].createdAt
    {
      assert id in Available(now, {}) && id !in sent && id !in batch;
      assert k >= |sent| ==> all[k] == batch[k - |sent|];
    }
  }

  lemma CountAfter(rows: Table, now: Table, sent: seq<nat>)
    requires Distinct(sent) && (forall k :: 0 <= k < |sent| ==> sent[k] in Available(rows, {})) && now.Keys == rows.Keys
    requires forall id :: id in rows ==> (now[id].published <==> rows[id].published || id in sent)
    ensures |Available(now, {})| == |Available(rows, {})| - |sent|
  {
    var ids := set k | 0 <= k < |sent| :: sent[k];
    DistinctCount(sent, ids);
    assert Available(now, {}) == Available(rows, {}) - ids;
    assert ids <= Available(rows, {});
  }

  /** k calls take the oldest 100k pending rows (or all of them, when there are fewer), each once and in order of age. */
  lemma {:induction false} CallsTakeTheOldest(rows: Table, batches: seq<seq<nat>>)
    requires AreCalls(rows, batches)
    ensures OldestFirst(rows, Flatten(batches))
    ensures var n := |Available(rows, {})|;
            |Flatten(batches)| == if n < BATCH_SIZE * |batches| then n else BATCH_SIZE * |batches|
    ensures forall id :: id in rows ==>
      (AfterCalls(rows, batches)[id].published <==> rows[id].published || id in Flatten(batches))
    decreases |batches|
  {
    hide IsBatch, Ordered, Distinct, OldestFirst;
    AfterCallsIs(rows, batches);
    if batches == [] {
      assert OldestFirst(rows, []) by { NothingIsOldest(rows); }
    } else {
      var init, batch := batches[..|batches| - 1], batches[|batches| - 1];
      CallsTakeTheOldest(rows, init);
      AfterCallsIs(rows, init);
      var now, sent := AfterCalls(rows, init), Flatten(init);
      AppendBatch(rows, sent, now, batch);
      OldestMeans(rows, sent);
      CountAfter(rows, now, sent);
      BatchSize(now, batch);
    }
  }

  lemma NothingIsOldest(rows: Table)
    ensures OldestFirst(rows, [])
  {
  }

  lemma OldestMeans(rows: Table, sent: seq<nat>)
    requires OldestFirst(rows, sent)
    ensures Distinct(sent) && forall k :: 0 <= k < |sent| ==> sent[k] in Available(rows, {})
  {
  }

  lemma BatchSize(rows: Table, batch: seq<nat>)
    requires IsBatch(rows, {}, batch)
    ensures |batch| == if |Available(rows, {})| < BATCH_SIZE then |Available(rows, {})| else BATCH_SIZE
  {
  }

  // ----- the publisher -----

  /** The deliveries of the rows, one after another. */
  function Deliveries(publisher: nat, ids: seq<nat>): seq<Step> {
    if ids == [] then [] else Deliveries(publisher, ids[..|ids| - 1]) + [Deliver(publisher, ids[|ids| - 1])]
  }

  /** A call that meets no failure: claim, deliver all, confirm. */
  function CallSteps(publisher: nat, batch: seq<nat>, locked: set<nat>): seq<Step> {
    [ClaimRows(publisher, batch, locked)] + Deliveries(publisher, batch) + [Confirm(publisher)]
  }

  lemma {:induction false} OldestExists(rows: Table, ids: set<nat>) returns (id: nat)
    requires ids != {} && ids <= rows.Keys
    ensures id in ids && forall other :: other in ids ==> rows[id].createdAt <= rows[other].createdAt
    decreases |ids|
  {
    id :| id in ids;
    if ids != {id} {
      var rest := ids - {id};
      var best := OldestExists(rows, rest);
      if rows[best].createdAt < rows[id].createdAt {
        id := best;
      }
    }
  }

  /**
   What happens to one call: errors of the claiming transaction, of produce, of the delivery (after the
   broker took some of the rows), of the closing update, and of the update that records an error.
   */
  datatype Fate = Fate(
    claimError: Option<string>, produceError: Option<string>, taken: seq<nat>, deliverError: Option<string>,
    updateError: Option<string>, rescueFails: bool)

  predicate Smooth(fate: Fate) {
    fate.claimError.None? && fate.produceError.None? && fate.deliverError.None? && fate.updateError.None?
  }

  /** The error a call raises after its claim. */
  function Raised(fate: Fate): Option<string> {
    if fate.produceError.Some? then fate.produceError
    else if fate.deliverError.Some? then fate.deliverError
    else fate.updateError
  }

  /** The rows of the batch the broker acknowledges: all of them when deliver_messages returns normally. */
  function Acknowledged(fate: Fate, batch: seq<nat>): (r: seq<nat>)
    ensures forall k :: 0 <= k < |r| ==> r[k] in batch
    ensures Raised(fate).None? ==> r == batch
  {
    if fate.produceError.Some? then []
    else if fate.deliverError.None? then batch
    else Within(fate.taken, batch)
  }

  function Within(taken: seq<nat>, batch: seq<nat>): (r: seq<nat>)
    ensures forall k :: 0 <= k < |r| ==> r[k] in batch
  {
    if taken == [] then [] else (if taken[0] in batch then [taken[0]] else []) + Within(taken[1..], batch)
  }

  /** `truncate(2_000)`: at most 2000 characters, the last three of a longer text being dots. */
  function Shortened(text: string): (r: string)
    ensures |text| <= 2000 ==> r == text
    ensures |text| > 2000 ==> |r| == 2000 && r[..1997] == text[..1997] && r[1997..] == "..."
  {
    if |text| <= 2000 then text else text[..1997] + "..."
  }

  class Database {
    var world: World

    constructor ()
      ensures world == START
    {
      world := START;
    }
  }

  class Publisher {
    const id: nat
    const database: Database

    constructor (id: nat, database: Database)
      ensures this.id == id && this.database == database
    {
      this.id, this.database := id, database;
    }

    /** One transaction: lock the oldest pending rows that are not locked and count the attempt. */
    method ClaimPendingEvents(locked: set<nat>) returns (events: seq<nat>)
      requires id !in database.world.claims
      modifies database
      ensures IsBatch(old(database.world.rows), locked, events)
      ensures database.world == After(old(database.world), ClaimRows(id, events, locked))
    {
      hide Distinct, Ordered;
      var rows := database.world.rows;
      var available := Available(rows, locked);
      var left := available;
      events := [];
      assert Distinct([]) && Ordered(rows, []) by { NothingChosen(rows); }
      while |events| < BATCH_SIZE && left != {}
        invariant database.world == old(database.world)
        invariant left <= available && |events| <= BATCH_SIZE && |events| + |left| == |available|
        invariant forall k :: 0 <= k < |events| ==> events[k] in available && events[k] !in left
        invariant forall x :: x in available ==> x in left || x in events
        invariant Distinct(events) && Ordered(rows, events)
        invariant forall k, x :: 0 <= k < |events| && x in left ==> rows[events[k]].createdAt <= rows[x].createdAt
        decreases |left|
      {
        ghost var oldest := OldestExists(rows, left);
        var next :| next in left && forall other :: other in left ==> rows[next].createdAt <= rows[other].createdAt;
        ChooseNext(rows, events, left, next);
        events := events + [next];
        left := left - {next};
      }
      assert IsBatch(rows, locked, events);
      assert Enabled(database.world, ClaimRows(id, events, locked));
      database.world := After(database.world, ClaimRows(id, events, locked));
    }

    /** The broker takes the acknowledged rows, one by one. */
    method DeliverMessages(acks: seq<nat>) returns (steps: seq<Step>)
      requires id in database.world.claims && forall k :: 0 <= k < |acks| ==> acks[k] in database.world.claims[id].batch
      modifies database
      ensures steps == Deliveries(id, acks)
      ensures Play(old(database.world), steps) == Some(database.world)
      ensures database.world == old(database.world).(topic := database.world.topic, claims := database.world.claims)
      ensures database.world.topic == old(database.world.topic) + acks
      ensures id in database.world.claims
      ensures database.world.claims == old(database.world.claims)[id := database.world.claims[id]]
      ensures database.world.claims[id].batch == old(database.world.claims[id].batch)
      ensures forall k :: 0 <= k < |acks| ==> acks[k] in database.world.claims[id].sent
    {
      hide Play;
      steps := [];
      ghost var before := database.world;
      NoSteps(before);
      for i := 0 to |acks|
        invariant steps == Deliveries(id, acks[..i])
        invariant Play(before, steps) == Some(database.world)
        invariant database.world == before.(topic := database.world.topic, claims := database.world.claims)
        invariant database.world.topic == before.topic + acks[..i]
        invariant id in database.world.claims
        invariant database.world.claims == before.claims[id := database.world.claims[id]]
        invariant database.world.claims[id].batch == before.claims[id].batch
        invariant forall k :: 0 <= k < i ==> acks[k] in database.world.claims[id].sent
      {
        assert acks[..i + 1][..i] == acks[..i];
        var step := Deliver(id, acks[i]);
        PlayExtends(before, steps, step);
        database.world := After(database.world, step);
        steps := steps + [step];
      }
      assert acks[..|acks|] == acks;
    }

    /**
     Claims a batch, delivers it and marks it published; on an error it counts a second attempt, keeps
     the message and raises. What it does is a run of the protocol, and it leaves no claim behind.
     */
    method PublishBatch(locked: set<nat>, fate: Fate) returns (result: Result<nat, string>, steps: seq<Step>)
      requires id !in database.world.claims
      modifies database
      ensures Play(old(database.world), steps) == Some(database.world)
      ensures database.world.claims == old(database.world.claims)
      ensures result.Ok? <==> Smooth(fate)
      ensures fate.claimError.Some? ==> database.world == old(database.world)
      ensures fate.claimError.None? ==>
        steps != [] && steps[0].ClaimRows? && IsBatch(old(database.world.rows), locked, steps[0].batch)
      ensures fate.claimError.None? ==>
        database.world.topic == old(database.world.topic) + Acknowledged(fate, steps[0].batch)
      ensures result.Ok? ==> steps == CallSteps(id, steps[0].batch, locked)
      ensures result.Ok? ==>
        database.world.rows == Called(old(database.world.rows), steps[0].batch) && result.value == |steps[0].batch|
      ensures result.Err? && fate.claimError.None? ==>
        var attempted := Attempted(old(database.world.rows), steps[0].batch);
        database.world.rows == if fate.rescueFails then attempted else Failed(attempted, steps[0].batch, Shortened(result.error))
    {
      hide Play, IsBatch, Within, Deliveries;
      ghost var before := database.world;
      NoSteps(before);
      if fate.claimError.Some? {
        return Err(fate.claimError.value), [];
      }
      var events := ClaimPendingEvents(locked);
      steps := [ClaimRows(id, events, locked)];
      PlayExtends(before, [], steps[0]);
      assert [] + [steps[0]] == steps;
      assert before.claims == database.world.claims - {id};
      var more := DeliverMessages(Acknowledged(fate, events));
      PlayComposes(before, steps, more);
      steps := steps + more;
      var error := Raised(fate);
      var last := if error.None? then Confirm(id) else if fate.rescueFails then Crash(id) else Fail(id, Shortened(error.value));
      assert database.world.claims - {id} == before.claims;
      PlayExtends(before, steps, last);
      database.world := After(database.world, last);
      steps := steps + [last];
      result := if error.None? then Ok(|events|) else Err(error.value);
    }
  }

  lemma NothingChosen(rows: Table)
    ensures Distinct([]) && Ordered(rows, [])
  {
  }

  lemma ChooseNext(rows: Table, events: seq<nat>, left: set<nat>, next: nat)
    requires Distinct(events) && (forall k :: 0 <= k < |events| ==> events[k] in rows && events[k] !in left) && Ordered(rows, events)
    requires next in left && next in rows && forall k :: 0 <= k < |events| ==> rows[events[k]].createdAt <= rows[next].createdAt
    ensures Distinct(events + [next]) && Ordered(rows, events + [next])
  {
  }
}
