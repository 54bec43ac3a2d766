/**
 The realtime broker: subscribers per tenant, each with a buffered channel of 64 payloads. A publish
 holds the read lock and offers its payload to one subscriber after another, so several publishes may
 interleave; subscribe and unsubscribe hold the write lock, so they run while no publish does.
 */
module RealtimeBroker {
  import opened Outcomes

  const CAPACITY: nat := 64
  const ID_BOUND: nat := 0x1_0000_0000_0000_0000

  type Payload = string

  type Channels = map<nat, seq<Payload>>

  /** A publish under way: the subscribers it has not come to yet, and how many had no room. */
  datatype Active = Active(tenant: string, payload: Payload, remaining: set<nat>, dropped: nat)

  datatype State = State(nextId: nat, subs: map<string, Channels>, active: map<nat, Active>)

  datatype Step =
    | Subscribe(tenant: string)
    | Unsubscribe(tenant: string, id: nat)
    | Begin(worker: nat, tenant: string, payload: Payload)
    | Offer(worker: nat, id: nat)
    | End(worker: nat)
    | Receive(tenant: string, id: nat)

  const START: State := State(0, map[], map[])

  predicate Live(s: State, tenant: string, id: nat) {
    tenant in s.subs && id in s.subs[tenant]
  }

  function ChannelsOf(s: State, tenant: string): Channels {
    if tenant in s.subs then s.subs[tenant] else map[]
  }

  /** uint64 increment. */
  function NextId(s: State): nat {
    (s.nextId + 1) % ID_BOUND
  }

  predicate Enabled(s: State, step: Step) {
    match step
    case Subscribe(_) => s.active == map[]
    case Unsubscribe(_, _) => s.active == map[]
    case Begin(w, _, _) => w !in s.active
    case Offer(w, id) => w in s.active && id in s.active[w].remaining && Live(s, s.active[w].tenant, id)
    case End(w) => w in s.active && s.active[w].remaining == {}
    case Receive(tenant, id) => Live(s, tenant, id) && s.subs[tenant][id] != []
  }

  function Put(channels: Channels, id: nat, queue: seq<Payload>): Channels {
    channels[id := queue]
  }

  function SetChannel(s: State, tenant: string, id: nat, queue: seq<Payload>): State {
    s.(subs := s.subs[tenant := Put(ChannelsOf(s, tenant), id, queue)])
  }

  function Push(queue: seq<Payload>, payload: Payload): seq<Payload> {
    if |queue| < CAPACITY then queue + [payload] else queue
  }

  function After(s: State, step: Step): State
    requires Enabled(s, step)
  {
    match step
    case Subscribe(tenant) => SetChannel(s, tenant, NextId(s), []).(nextId := NextId(s))
    case Unsubscribe(tenant, id) =>
      if tenant !in s.subs then s
      else if s.subs[tenant] - {id} == map[] then s.(subs := s.subs - {tenant})
      else s.(subs := s.subs[tenant := s.subs[tenant] - {id}])
    case Begin(w, tenant, payload) =>
      s.(active := s.active[w := Active(tenant, payload, ChannelsOf(s, tenant).Keys, 0)])
    case Offer(w, id) =>
      var a := s.active[w];
      var queue := s.subs[a.tenant][id];
      var missed := if |queue| < CAPACITY then 0 else 1;
      SetChannel(s, a.tenant, id, Push(queue, a.payload)).(
        active := s.active[w := a.(remaining := a.remaining - {id}, dropped := a.dropped + missed)])
    case End(w) => s.(active := s.active - {w})
    case Receive(tenant, id) => SetChannel(s, tenant, id, s.subs[tenant][id][1..])
  }

  function Play(s: State, steps: seq<Step>): Option<State> {
    if steps == [] then Some(s)
    else
      match Play(s, steps[..|steps| - 1])
      case None => None
      case Some(now) => if Enabled(now, steps[|steps| - 1]) then Some(After(now, steps[|steps| - 1])) else None
  }

  // ----- what happened to a subscriber -----

  /**
   One subscription's own account: the publishes of its tenant begun since it subscribed, those offered
   to it, what it received, and how many were dropped. Entries carry the publishing worker.
   */
  datatype Account = Account(
    tenant: string, begun: seq<(nat, Payload)>, offered: seq<(nat, Payload)>, received: seq<Payload>, dropped: nat)

  type Accounts = map<nat, Account>

  function Note(book: Accounts, s: State, step: Step): Accounts
    requires Enabled(s, step)
  {
    match step
    case Subscribe(tenant) => book[NextId(s) := Account(tenant, [], [], [], 0)]
    case Begin(w, tenant, payload) =>
      map id | id in book ::
        if book[id].tenant == tenant then book[id].(begun := book[id].begun + [(w, payload)]) else book[id]
    case Offer(w, id) =>
      var a := s.active[w];
      if id !in book then book
      else
        var missed := if |s.subs[a.tenant][id]| < CAPACITY then 0 else 1;
        book[id := book[id].(offered := book[id].offered + [(w, a.payload)], dropped := book[id].dropped + missed)]
    case Receive(tenant, id) =>
      if id !in book then book
      else book[id := book[id].(received := book[id].received + [s.subs[tenant][id][0]])]
    case _ => book
  }

  function Book(steps: seq<Step>): Accounts
    requires Play(START, steps).Some?
  {
    if steps == [] then map[]
    else
      var init := steps[..|steps| - 1];
      Note(Book(init), Play(START, init).value, steps[|steps| - 1])
  }

  function Subscriptions(steps: seq<Step>): nat {
    if steps == [] then 0
    else Subscriptions(steps[..|steps| - 1]) + if steps[|steps| - 1].Subscribe? then 1 else 0
  }

  function Payloads(entries: seq<(nat, Payload)>): (r: seq<Payload>)
    ensures |r| == |entries| && forall k :: 0 <= k < |r| ==> r[k] == entries[k].1
  {
    seq(|entries|, k requires 0 <= k < |entries| => entries[k].1)
  }

  /** The entries of one worker. */
  function From(w: nat, entries: seq<(nat, Payload)>): seq<Payload> {
    if entries == [] then []
    else
      var last := entries[|entries| - 1];
      From(w, entries[..|entries| - 1]) + if last.0 == w then [last.1] else []
  }

  /** `part` can be had from `whole` by leaving elements out. */
  predicate IsSubsequence(part: seq<Payload>, whole: seq<Payload>) {
    part == [] ||
    (whole != [] &&
     ((part[|part| - 1] == whole[|whole| - 1] && IsSubsequence(part[..|part| - 1], whole[..|whole| - 1])) ||
      IsSubsequence(part, whole[..|whole| - 1])))
  }

  /** The publishes under way that have yet to come to a subscriber. */
  function Waiting(s: State, tenant: string, id: nat): set<nat> {
    set w | w in s.active && s.active[w].tenant == tenant && id in s.active[w].remaining
  }

  function PendingFrom(s: State, tenant: string, id: nat, w: nat): seq<Payload> {
    if w in Waiting(s, tenant, id) then [s.active[w].payload] else []
  }

  // ----- invariants -----

  predicate WellFormed(s: State) {
    && (forall tenant :: tenant in s.subs ==> s.subs[tenant] != map[])
    && (forall tenant, id | tenant in s.subs && id in s.subs[tenant] :: |s.subs[tenant][id]| <= CAPACITY)
    && (forall w, id | w in s.active && id in s.active[w].remaining :: Live(s, s.active[w].tenant, id))
  }

  /** Ids are those handed out so far, and each is live for at most one tenant, the one in its account. */
  predicate Known(s: State, book: Accounts) {
    && s.nextId < ID_BOUND
    && (forall id :: id in book ==> 0 < id <= s.nextId)
    && (forall tenant, id | tenant in s.subs && id in s.subs[tenant] :: id in book && book[id].tenant == tenant)
  }

  ghost predicate Balanced(s: State, tenant: string, id: nat, account: Account)
    requires Live(s, tenant, id)
  {
    && IsSubsequence(account.received + s.subs[tenant][id], Payloads(account.offered))
    && |account.received| + |s.subs[tenant][id]| + account.dropped == |account.offered|
    && |account.begun| == |account.offered| + |Waiting(s, tenant, id)|
    && forall w: nat :: From(w, account.begun) == From(w, account.offered) + PendingFrom(s, tenant, id, w)
  }

  lemma ChannelsStayNonempty(s: State, step: Step, tenant: string)
    requires Enabled(s, step) && tenant in After(s, step).subs
    requires tenant in s.subs ==> s.subs[tenant] != map[]
    ensures After(s, step).subs[tenant] != map[]
  {
    if step.Subscribe? && step.tenant == tenant {
      assert NextId(s) in After(s, step).subs[tenant];
    } else if step.Offer? && s.active[step.worker].tenant == tenant {
      assert step.id in After(s, step).subs[tenant];
    } else if step.Receive? && step.tenant == tenant {
      assert step.id in After(s, step).subs[tenant];
    }
  }

  lemma StepKeepsWellFormed(s: State, step: Step)
    requires WellFormed(s) && Enabled(s, step)
    ensures WellFormed(After(s, step))
  {
    var s' := After(s, step);
    forall tenant | tenant in s'.subs
      ensures s'.subs[tenant] != map[]
    {
      ChannelsStayNonempty(s, step, tenant);
    }
    forall tenant, id | tenant in s'.subs && id in s'.subs[tenant]
      ensures |s'.subs[tenant][id]| <= CAPACITY
    {
      if Live(s, tenant, id) {
        assert |s.subs[tenant][id]| <= CAPACITY;
      }
    }
    forall w, id | w in s'.active && id in s'.active[w].remaining
      ensures Live(s', s'.active[w].tenant, id)
    {
      if w in s.active {
        assert id in s.active[w].remaining ==> Live(s, s.active[w].tenant, id);
      }
    }
  }

  /** Only Subscribe makes a channel, under the next id. */
  lemma WasLive(s: State, step: Step, tenant: string, id: nat)
    requires Enabled(s, step) && Live(After(s, step), tenant, id)
    ensures Live(s, tenant, id) || (step.Subscribe? && tenant == step.tenant && id == NextId(s))
  {
  }

  /** A step keeps the account of everyone with one. */
  lemma StaysNoted(s: State, book: Accounts, step: Step, id: nat)
    requires Enabled(s, step) && id in book && (step.Subscribe? ==> id != NextId(s))
    ensures id in Note(book, s, step) && Note(book, s, step)[id].tenant == book[id].tenant
  {
  }

  lemma NotedIds(s: State, book: Accounts, step: Step)
    requires Enabled(s, step)
    ensures Note(book, s, step).Keys == if step.Subscribe? then book.Keys + {NextId(s)} else book.Keys
    ensures step.Subscribe? ==> Note(book, s, step)[NextId(s)].tenant == step.tenant
    ensures After(s, step).nextId == if step.Subscribe? then NextId(s) else s.nextId
  {
  }

  lemma StepKeepsKnown(s: State, book: Accounts, step: Step)
    requires Known(s, book) && Enabled(s, step) && (step.Subscribe? ==> s.nextId + 1 < ID_BOUND)
    ensures Known(After(s, step), Note(book, s, step))
    ensures step.Subscribe? ==> NextId(s) !in book
  {
    assert step.Subscribe? ==> NextId(s) == s.nextId + 1;
    NotedIds(s, book, step);
    hide After, Note, Enabled;
    var s', book' := After(s, step), Note(book, s, step);
    forall tenant, id | tenant in s'.subs && id in s'.subs[tenant]
      ensures id in book' && book'[id].tenant == tenant
    {
      WasLive(s, step, tenant, id);
      if Live(s, tenant, id) {
        StaysNoted(s, book, step, id);
      }
    }
  }

  lemma {:induction false} SubsequenceGrows(part: seq<Payload>, whole: seq<Payload>, x: Payload)
    requires IsSubsequence(part, whole)
    ensures IsSubsequence(part, whole + [x]) && IsSubsequence(part + [x], whole + [x])
  {
    assert (whole + [x])[..|whole + [x]| - 1] == whole;
    assert (part + [x])[..|part + [x]| - 1] == part;
  }

  lemma FromGrows(w: nat, entries: seq<(nat, Payload)>, sender: nat, payload: Payload)
    ensures From(w, entries + [(sender, payload)]) == From(w, entries) + if sender == w then [payload] else []
  {
    assert (entries + [(sender, payload)])[..|entries + [(sender, payload)]| - 1] == entries;
  }

  /** Steps that neither begin a publish for the subscriber nor touch its channel leave its account balanced. */
  lemma Unaffected(s: State, s': State, tenant: string, id: nat, account: Account)
    requires Live(s, tenant, id) && Live(s', tenant, id) && Balanced(s, tenant, id, account)
    requires s'.subs[tenant][id] == s.subs[tenant][id]
    requires forall w :: w in Waiting(s', tenant, id) <==> w in Waiting(s, tenant, id)
    requires forall w :: w in Waiting(s, tenant, id) ==> s'.active[w].payload == s.active[w].payload
    ensures Balanced(s', tenant, id, account)
  {
    hide IsSubsequence, From, Waiting;
    assert Waiting(s', tenant, id) == Waiting(s, tenant, id);
    assert forall w: nat :: PendingFrom(s', tenant, id, w) == PendingFrom(s, tenant, id, w);
  }

  lemma BeginBalances(s: State, step: Step, tenant: string, id: nat, account: Account)
    requires step.Begin? && step.tenant == tenant && Enabled(s, step)
    requires Live(s, tenant, id) && Balanced(s, tenant, id, account)
    ensures Balanced(After(s, step), tenant, id, account.(begun := account.begun + [(step.worker, step.payload)]))
  {
    hide IsSubsequence, From;
    var s' := After(s, step);
    assert Waiting(s', tenant, id) == Waiting(s, tenant, id) + {step.worker};
    forall w: nat
      ensures From(w, account.begun + [(step.worker, step.payload)]) == From(w, account.offered) + PendingFrom(s', tenant, id, w)
    {
      FromGrows(w, account.begun, step.worker, step.payload);
      assert From(w, account.begun) == From(w, account.offered) + PendingFrom(s, tenant, id, w);
    }
  }

  lemma OfferEffects(s: State, step: Step, tenant: string, id: nat)
    requires step.Offer? && step.id == id && Enabled(s, step) && s.active[step.worker].tenant == tenant
    ensures var s' := After(s, step);
            && Live(s', tenant, id) && s'.subs[tenant][id] == Push(s.subs[tenant][id], s.active[step.worker].payload)
            && Waiting(s', tenant, id) == Waiting(s, tenant, id) - {step.worker} && step.worker in Waiting(s, tenant, id)
            && (forall w :: w in Waiting(s', tenant, id) ==> s'.active[w].payload == s.active[w].payload)
  {
  }

  /** The queue takes the payload or drops it. */
  lemma PushBalances(received: seq<Payload>, queue: seq<Payload>, offered: seq<(nat, Payload)>, w: nat, payload: Payload)
    requires IsSubsequence(received + queue, Payloads(offered))
    ensures IsSubsequence(received + Push(queue, payload), Payloads(offered + [(w, payload)]))
  {
    hide IsSubsequence;
    SubsequenceGrows(received + queue, Payloads(offered), payload);
    assert Payloads(offered + [(w, payload)]) == Payloads(offered) + [payload];
    assert received + (queue + [payload]) == received + queue + [payload];
  }

  lemma OfferBalances(s: State, step: Step, tenant: string, id: nat, book: Accounts)
    requires step.Offer? && step.id == id && Enabled(s, step) && s.active[step.worker].tenant == tenant && id in book
    requires Live(s, tenant, id) && Balanced(s, tenant, id, book[id])
    ensures Live(After(s, step), tenant, id) && id in Note(book, s, step)
    ensures Balanced(After(s, step), tenant, id, Note(book, s, step)[id])
  {
    OfferEffects(s, step, tenant, id);
    hide IsSubsequence, From, After, Waiting;
    var s', account, payload := After(s, step), book[id], s.active[step.worker].payload;
    var account' := Note(book, s, step)[id];
    PushBalances(account.received, s.subs[tenant][id], account.offered, step.worker, payload);
    forall w: nat
      ensures From(w, account'.begun) == From(w, account'.offered) + PendingFrom(s', tenant, id, w)
    {
      FromGrows(w, account.offered, step.worker, payload);
      assert From(w, account.begun) == From(w, account.offered) + PendingFrom(s, tenant, id, w);
    }
  }

  lemma ReceiveBalances(s: State, step: Step, tenant: string, id: nat, book: Accounts)
    requires step.Receive? && step.id == id && step.tenant == tenant && Enabled(s, step) && id in book
    requires Live(s, tenant, id) && Balanced(s, tenant, id, book[id])
    ensures Balanced(After(s, step), tenant, id, Note(book, s, step)[id])
  {
    hide IsSubsequence, From;
    var s', account := After(s, step), book[id];
    var queue := s.subs[tenant][id];
    assert account.received + [queue[0]] + queue[1..] == account.received + queue;
    assert Waiting(s', tenant, id) == Waiting(s, tenant, id);
    assert forall w: nat :: PendingFrom(s', tenant, id, w) == PendingFrom(s, tenant, id, w);
  }

  lemma SubscribeBalances(s: State, step: Step)
    requires step.Subscribe? && Enabled(s, step)
    ensures Live(After(s, step), step.tenant, NextId(s))
    ensures Balanced(After(s, step), step.tenant, NextId(s), Account(step.tenant, [], [], [], 0))
  {
    assert Waiting(After(s, step), step.tenant, NextId(s)) == {};
  }

  lemma StepBalances(s: State, book: Accounts, step: Step, tenant: string, id: nat)
    requires Known(s, book) && Enabled(s, step) && (step.Subscribe? ==> s.nextId + 1 < ID_BOUND)
    requires Live(s, tenant, id) ==> Balanced(s, tenant, id, book[id])
    ensures Known(After(s, step), Note(book, s, step))
    ensures Live(After(s, step), tenant, id) ==> Balanced(After(s, step), tenant, id, Note(book, s, step)[id])
  {
    hide Balanced, Waiting;
    StepKeepsKnown(s, book, step);
    var s' := After(s, step);
    if Live(s', tenant, id) {
      if !Live(s, tenant, id) {
        assert step.Subscribe? && step.tenant == tenant && id == NextId(s);
        SubscribeBalances(s, step);
      } else if step.Begin? && step.tenant == tenant {
        BeginBalances(s, step, tenant, id, book[id]);
      } else if step.Offer? && step.id == id {
        assert s.active[step.worker].tenant == tenant;
        OfferBalances(s, step, tenant, id, book);
      } else if step.Receive? && step.id == id {
        assert step.tenant == tenant;
        ReceiveBalances(s, step, tenant, id, book);
      } else {
        WaitingUnaffected(s, step, tenant, id);
        Unaffected(s, s', tenant, id, book[id]);
      }
    }
  }

  lemma WaitingUnaffected(s: State, step: Step, tenant: string, id: nat)
    requires Enabled(s, step) && !(step.Begin? && step.tenant == tenant) && !(step.Offer? && step.id == id)
    ensures forall w :: w in Waiting(After(s, step), tenant, id) <==> w in Waiting(s, tenant, id)
    ensures forall w :: w in Waiting(s, tenant, id) ==> After(s, step).active[w].payload == s.active[w].payload
  {
  }

  lemma {:induction false} RunsBalance(steps: seq<Step>, tenant: string, id: nat)
    requires Play(START, steps).Some? && Subscriptions(steps) < ID_BOUND
    ensures var s := Play(START, steps).value;
            && WellFormed(s) && Known(s, Book(steps)) && s.nextId == Subscriptions(steps)
            && (Live(s, tenant, id) ==> Balanced(s, tenant, id, Book(steps)[id]))
    decreases |steps|
  {
    hide Enabled, After, Note, Balanced, WellFormed, Known;
    if steps == [] {
      StartsWell(tenant, id);
    } else {
      var n := |steps| - 1;
      RunsBalance(steps[..n], tenant, id);
      var s := Play(START, steps[..n]).value;
      StepKeepsWellFormed(s, steps[n]);
      CountStep(s, steps[n]);
      StepBalances(s, Book(steps[..n]), steps[n], tenant, id);
    }
  }

  lemma StartsWell(tenant: string, id: nat)
    ensures WellFormed(START) && Known(START, map[]) && !Live(START, tenant, id)
  {
  }

  lemma CountStep(s: State, step: Step)
    requires Enabled(s, step)
    ensures After(s, step).nextId == if step.Subscribe? then (s.nextId + 1) % ID_BOUND else s.nextId
  {
  }

  /**
   In every run of fewer than 2^64 subscriptions, for every live subscriber: what it received followed by
   what is queued is an ordered part of its tenant's publishes since it subscribed; received, queued and
   dropped add up; the queue holds at most 64; no tenant keeps an empty map. Each worker's publishes
   reach it in the order they were made, all of them once that worker is idle.
   */
  lemma DeliveryToALiveSubscriber(steps: seq<Step>, tenant: string, id: nat)
    requires Play(START, steps).Some? && Subscriptions(steps) < ID_BOUND && Live(Play(START, steps).value, tenant, id)
    ensures id in Book(steps) && Book(steps)[id].tenant == tenant
    ensures var s := Play(START, steps).value;
            var account := Book(steps)[id];
            && IsSubsequence(account.received + s.subs[tenant][id], Payloads(account.offered))
            && |account.received| + |s.subs[tenant][id]| + account.dropped == |account.offered|
            && |s.subs[tenant][id]| <= 64 && (forall t :: t in s.subs ==> s.subs[t] != map[])
            && (forall w :: w !in s.active ==> From(w, account.offered) == From(w, account.begun))
            && (s.active == map[] ==> |account.offered| == |account.begun|)
  {
    hide Play, Book, IsSubsequence, Note, From;
    RunsBalance(steps, tenant, id);
    var s := Play(START, steps).value;
    assert s.active == map[] ==> Waiting(s, tenant, id) == {};
  }

  // ----- ids -----

  /** Ids count subscriptions modulo 2^64, so two subscriptions of a run share an id only 2^64 apart. */
  lemma {:induction false} IdsCountSubscriptions(steps: seq<Step>)
    requires Play(START, steps).Some?
    ensures Play(START, steps).value.nextId == Subscriptions(steps) % ID_BOUND
    decreases |steps|
  {
    hide Enabled, After;
    if steps != [] {
      IdsCountSubscriptions(steps[..|steps| - 1]);
      CountStep(Play(START, steps[..|steps| - 1]).value, steps[|steps| - 1]);
    }
  }

  lemma {:induction false} SubscriptionsGrow(steps: seq<Step>, i: nat, j: nat)
    requires i <= j <= |steps|
    ensures Subscriptions(steps[..i]) <= Subscriptions(steps[..j])
    ensures i < j && steps[i].Subscribe? ==> Subscriptions(steps[..i]) < Subscriptions(steps[..j])
    decreases j
  {
    if i < j {
      assert steps[..j][..j - 1] == steps[..j - 1];
      SubscriptionsGrow(steps, i, j - 1);
    }
  }

  /** Two subscriptions of one run get one id exactly when a multiple of 2^64 subscriptions lies between them. */
  lemma IdsAreReusedExactlyOnWrap(steps: seq<Step>, i: nat, j: nat)
    requires i < j < |steps| && steps[i].Subscribe? && steps[j].Subscribe? && Play(START, steps[..i]).Some? && Play(START, steps[..j]).Some?
    ensures Subscriptions(steps[..i]) < Subscriptions(steps[..j])
    ensures NextId(Play(START, steps[..i]).value) == NextId(Play(START, steps[..j]).value) <==>
            (Subscriptions(steps[..j]) - Subscriptions(steps[..i])) % 0x1_0000_0000_0000_0000 == 0
  {
    hide Play, Subscriptions;
    IdsCountSubscriptions(steps[..i]);
    IdsCountSubscriptions(steps[..j]);
    SubscriptionsGrow(steps, i, j);
    SuccessorsAgree(Subscriptions(steps[..i]), Subscriptions(steps[..j]));
  }

  lemma SuccessorsAgree(a: nat, b: nat)
    requires a <= b
    ensures (a % ID_BOUND + 1) % ID_BOUND == (b % ID_BOUND + 1) % ID_BOUND <==> (b - a) % ID_BOUND == 0
  {
    var p, q := a / ID_BOUND, b / ID_BOUND;
    var x, y := a % ID_BOUND, b % ID_BOUND;
    assert a == p * ID_BOUND + x && b == q * ID_BOUND + y;
    assert b - a == (q - p) * ID_BOUND + (y - x);
    if x == y {
      assert (b - a) % ID_BOUND == 0;
    } else if x < y {
      assert (b - a) / ID_BOUND == q - p && (b - a) % ID_BOUND == y - x;
    } else {
      assert b - a == (q - p - 1) * ID_BOUND + (ID_BOUND + y - x);
      assert (b - a) / ID_BOUND == q - p - 1;
    }
  }

  // ----- the broker itself -----

  datatype Subscription = Subscription(id: nat, tenant: string)

  /** The subscribers whose channel has no room. */
  function Full(channels: Channels): set<nat> {
    set id | id in channels && |channels[id]| >= 64
  }

  lemma PlayExtends(s: State, steps: seq<Step>, step: Step)
    requires Play(s, steps).Some? && Enabled(Play(s, steps).value, step)
    ensures Play(s, steps + [step]) == Some(After(Play(s, steps).value, step))
  {
    hide Enabled, After;
    assert (steps + [step])[..|steps + [step]| - 1] == steps;
  }

  lemma NoSteps(s: State)
    ensures Play(s, []) == Some(s)
  {
  }

  /** One broker; its methods hold the lock from start to end, so no publish is under way between calls. */
  class Broker {
    var nextID: nat
    var subscribers: map<string, Channels>

    function Abstract(): State
      reads this
    {
      State(nextID, subscribers, map[])
    }

    constructor ()
      ensures Abstract() == START
    {
      nextID, subscribers := 0, map[];
    }

    method Subscribe(tenant: string) returns (sub: Subscription)
      modifies this
      ensures Abstract() == After(old(Abstract()), Step.Subscribe(tenant))
      ensures sub == Subscription(NextId(old(Abstract())), tenant) && nextID == sub.id
      ensures Live(Abstract(), tenant, sub.id) && subscribers[tenant][sub.id] == []
    {
      nextID := (nextID + 1) % ID_BOUND;
      if tenant !in subscribers {
        subscribers := subscribers[tenant := map[]];
      }
      subscribers := subscribers[tenant := Put(subscribers[tenant], nextID, [])];
      sub := Subscription(nextID, tenant);
    }

    method Unsubscribe(sub: Subscription)
      modifies this
      ensures Abstract() == After(old(Abstract()), Step.Unsubscribe(sub.tenant, sub.id))
      ensures !Live(Abstract(), sub.tenant, sub.id)
      ensures forall tenant, id :: Live(Abstract(), tenant, id) <==>
                old(Live(Abstract(), tenant, id)) && !(tenant == sub.tenant && id == sub.id)
      ensures old(WellFormed(Abstract())) ==> WellFormed(Abstract())
    {
      ghost var before := Abstract();
      if sub.tenant in subscribers {
        var tenants := subscribers[sub.tenant] - {sub.id};
        subscribers := subscribers[sub.tenant := tenants];
        if tenants == map[] {
          subscribers := subscribers - {sub.tenant};
        }
      }
      assert subscribers == After(before, Step.Unsubscribe(sub.tenant, sub.id)).subs;
      UnsubscribeRemovesExactly(before, sub.tenant, sub.id);
      if WellFormed(before) {
        StepKeepsWellFormed(before, Step.Unsubscribe(sub.tenant, sub.id));
      }
    }

    /**
     Offers the payload to each subscriber of the tenant, in whatever order the map yields them: it is a
     run of the protocol's steps, ends with each channel offered exactly once, and returns the number of
     channels that were full.
     */
    method Publish(tenant: string, payload: Payload) returns (dropped: nat, steps: seq<Step>)
      modifies this
      ensures Play(old(Abstract()), steps) == Some(Abstract())
      ensures dropped == |Full(ChannelsOf(old(Abstract()), tenant))|
      ensures nextID == old(nextID) && subscribers.Keys == old(subscribers.Keys)
      ensures forall t :: t in subscribers && t != tenant ==> subscribers[t] == old(subscribers)[t]
      ensures tenant in subscribers ==> subscribers[tenant].Keys == old(subscribers)[tenant].Keys
      ensures tenant in subscribers ==>
        forall id :: id in subscribers[tenant] ==>
          var before := old(subscribers)[tenant][id];
          subscribers[tenant][id] == if |before| < 64 then before + [payload] else before
    {
      hide Play, Midway, After, Enabled, ChannelsOf;
      ghost var before := Abstract();
      var remaining := ChannelsOf(Abstract(), tenant).Keys;
      dropped, steps := 0, [Begin(0, tenant, payload)];
      NoSteps(before);
      ghost var now := PublishBegins(before, tenant, payload);
      PlayExtends(before, [], steps[0]);
      assert [] + [steps[0]] == steps;
      while remaining != {}
        invariant Play(before, steps) == Some(now) && Midway(before, now, tenant, payload, remaining, dropped)
        invariant now.nextId == nextID && now.subs == subscribers
        decreases |remaining|
      {
        var id :| id in remaining;
        ghost var next := OfferAdvances(before, now, tenant, payload, remaining, dropped, id);
        PlayExtends(before, steps, Offer(0, id));
        steps := steps + [Offer(0, id)];
        var ch := subscribers[tenant][id];
        if |ch| < CAPACITY {
          subscribers := subscribers[tenant := Put(subscribers[tenant], id, ch + [payload])];
        } else {
          dropped := dropped + 1;
        }
        remaining := remaining - {id};
        now := next;
      }
      PublishEnds(before, now, tenant, payload, dropped);
      PlayExtends(before, steps, End(0));
      steps := steps + [End(0)];
    }
  }

  lemma UnsubscribeRemovesExactly(s: State, tenant: string, id: nat)
    requires s.active == map[]
    ensures var s' := After(s, Step.Unsubscribe(tenant, id));
            forall t, i :: Live(s', t, i) <==> Live(s, t, i) && !(t == tenant && i == id)
  {
    if tenant in s.subs {
      assert forall i :: i in s.subs[tenant] - {id} <==> i in s.subs[tenant] && i != id;
    }
  }

  /** Between two offers: the channels still to come are untouched, the others were offered the payload once. */
  predicate Midway(before: State, now: State, tenant: string, payload: Payload, remaining: set<nat>, dropped: nat) {
    var channels := ChannelsOf(before, tenant);
    && now.nextId == before.nextId && now.active == map[0 := Active(tenant, payload, remaining, dropped)]
    && now.subs.Keys == before.subs.Keys && remaining <= channels.Keys
    && dropped == |Full(channels) - remaining|
    && (forall t :: t in now.subs && t != tenant ==> now.subs[t] == before.subs[t])
    && (tenant in now.subs ==> PartlyOffered(channels, now.subs[tenant], payload, remaining))
  }

  predicate PartlyOffered(channels: Channels, now: Channels, payload: Payload, remaining: set<nat>) {
    && now.Keys == channels.Keys
    && forall id | id in now :: now[id] == if id in remaining then channels[id] else Push(channels[id], payload)
  }

  lemma OneMoreOffered(channels: Channels, now: Channels, payload: Payload, remaining: set<nat>, id: nat)
    requires PartlyOffered(channels, now, payload, remaining) && id in remaining && id in now
    ensures PartlyOffered(channels, Put(now, id, Push(channels[id], payload)), payload, remaining - {id})
    ensures now[id] == channels[id]
    ensures |now[id]| >= CAPACITY ==> Put(now, id, Push(channels[id], payload)) == now
  {
  }

  lemma PublishBegins(before: State, tenant: string, payload: Payload) returns (now: State)
    requires before.active == map[]
    ensures Enabled(before, Begin(0, tenant, payload)) && now == After(before, Begin(0, tenant, payload))
    ensures Midway(before, now, tenant, payload, ChannelsOf(before, tenant).Keys, 0)
    ensures now.subs == before.subs && now.nextId == before.nextId
  {
    now := After(before, Begin(0, tenant, payload));
    assert Full(ChannelsOf(before, tenant)) - ChannelsOf(before, tenant).Keys == {};
  }

  lemma OfferAdvances(before: State, now: State, tenant: string, payload: Payload, remaining: set<nat>, dropped: nat, id: nat)
    returns (next: State)
    requires Midway(before, now, tenant, payload, remaining, dropped) && id in remaining
    ensures tenant in now.subs && id in now.subs[tenant]
    ensures Enabled(now, Offer(0, id)) && next == After(now, Offer(0, id))
    ensures var queue := now.subs[tenant][id];
            && Midway(before, next, tenant, payload, remaining - {id}, if |queue| < CAPACITY then dropped else dropped + 1)
            && next.nextId == now.nextId
            && next.subs == if |queue| < CAPACITY then now.subs[tenant := Put(now.subs[tenant], id, queue + [payload])] else now.subs
  {
    assert tenant in now.subs && id in now.subs[tenant];
    next := OfferResult(now, tenant, payload, remaining, dropped, id);
    hide After, Full, PartlyOffered, Put;
    OneMoreOffered(ChannelsOf(before, tenant), now.subs[tenant], payload, remaining, id);
    CountDropped(ChannelsOf(before, tenant), remaining, id);
  }

  lemma OfferResult(now: State, tenant: string, payload: Payload, remaining: set<nat>, dropped: nat, id: nat) returns (next: State)
    requires now.active == map[0 := Active(tenant, payload, remaining, dropped)] && id in remaining && Live(now, tenant, id)
    ensures Enabled(now, Offer(0, id)) && next == After(now, Offer(0, id))
    ensures var queue := now.subs[tenant][id];
            && next.active == map[0 := Active(tenant, payload, remaining - {id}, if |queue| < CAPACITY then dropped else dropped + 1)]
            && next.nextId == now.nextId
            && next.subs == if |queue| < CAPACITY then now.subs[tenant := Put(now.subs[tenant], id, queue + [payload])] else now.subs
  {
    next := After(now, Offer(0, id));
    var queue := now.subs[tenant][id];
    assert |queue| >= CAPACITY ==> Put(now.subs[tenant], id, queue) == now.subs[tenant];
  }

  lemma PublishEnds(before: State, now: State, tenant: string, payload: Payload, dropped: nat)
    requires Midway(before, now, tenant, payload, {}, dropped)
    ensures Enabled(now, End(0)) && After(now, End(0)) == State(now.nextId, now.subs, map[])
    ensures dropped == |Full(ChannelsOf(before, tenant))| && now.nextId == before.nextId && now.subs.Keys == before.subs.Keys
    ensures forall t :: t in now.subs && t != tenant ==> now.subs[t] == before.subs[t]
    ensures tenant in now.subs ==> now.subs[tenant].Keys == before.subs[tenant].Keys
    ensures tenant in now.subs ==> forall id :: id in now.subs[tenant] ==> now.subs[tenant][id] == Push(before.subs[tenant][id], payload)
  {
    assert Full(ChannelsOf(before, tenant)) - {} == Full(ChannelsOf(before, tenant));
    assert now.active - {0} == map[];
  }

  lemma CountDropped(channels: Channels, remaining: set<nat>, id: nat)
    requires id in remaining && remaining <= channels.Keys
    ensures |Full(channels) - (remaining - {id})| ==
            |Full(channels) - remaining| + if |channels[id]| < CAPACITY then 0 else 1
  {
    if |channels[id]| < CAPACITY {
      assert Full(channels) - (remaining - {id}) == Full(channels) - remaining;
    } else {
      assert Full(channels) - (remaining - {id}) == (Full(channels) - remaining) + {id};
    }
  }
}
