/**
 The database's constraint that a stable id belongs to one node, over all tenants. Ids carry no tenant, so
 a MERGE for a second tenant's node of the same id is refused. This says exactly when nothing is refused.
 */
module GraphUniqueness {
  import opened Outcomes
  import opened PythonText
  import opened GraphModel
  import opened GraphDelivery
  import opened GraphBuilders
  import opened GraphPipeline

  /** The nodes a statement's MERGE finds or creates. */
  function Merged(s: Statement): set<NodeKey> {
    match s
    case Upsert(tenant, id, _, _) => {NodeKey(tenant, id)}
    case Link(tenant, _, _, source, target, _) => {NodeKey(tenant, source), NodeKey(tenant, target)}
    case Takedown(_, _, _) => {}
  }

  function Needs(event: Event): set<NodeKey> {
    match BuildStatement(event)
    case Ok(s) => Merged(s)
    case Err(_) => {}
  }

  /** No node the event needs would be the second of its id. */
  predicate Admits(g: Graph, event: Event) {
    forall k, n | k in Needs(event) && n in g.nodes && n.id == k.id :: n.tenant == k.tenant
  }

  /** The pass as the database allows it: None once an event is refused. */
  function GuardedPass(events: seq<Event>): Option<Graph> {
    if events == [] then Some(EMPTY)
    else
      match GuardedPass(events[..|events| - 1])
      case None => None
      case Some(g) => if Admits(g, events[|events| - 1]) then Some(Project(g, events[|events| - 1])) else None
  }

  /** Whenever two events need nodes of one id, it is for the same tenant. */
  ghost predicate OneTenantPerId(events: seq<Event>) {
    forall i, j, k, l | 0 <= i < |events| && 0 <= j < |events| && k in Needs(events[i]) && l in Needs(events[j]) ::
      k.id == l.id ==> k.tenant == l.tenant
  }

  lemma ProjectNodes(g: Graph, event: Event)
    ensures Project(g, event).nodes.Keys == g.nodes.Keys + Needs(event)
  {
    hide BuildStatement, AddProps, Stored;
  }

  ghost predicate Needed(events: seq<Event>, n: NodeKey) {
    exists i :: 0 <= i < |events| && n in Needs(events[i])
  }

  lemma NeededSnoc(events: seq<Event>, n: NodeKey)
    requires events != []
    ensures Needed(events, n) <==> Needed(events[..|events| - 1], n) || n in Needs(events[|events| - 1])
  {
    hide Needs;
    var init := events[..|events| - 1];
    if Needed(init, n) {
      var i :| 0 <= i < |init| && n in Needs(init[i]);
      assert n in Needs(events[i]);
    }
    if Needed(events, n) {
      var i :| 0 <= i < |events| && n in Needs(events[i]);
      assert i < |init| ==> n in Needs(init[i]);
    }
  }

  /** The nodes after a pass are those its events needed. */
  lemma {:induction false} PassNodes(events: seq<Event>, n: NodeKey)
    ensures n in ProjectAll(EMPTY, events).nodes <==> Needed(events, n)
    decreases |events|
  {
    hide Project, Needs;
    if events != [] {
      PassNodes(events[..|events| - 1], n);
      ProjectNodes(ProjectAll(EMPTY, events[..|events| - 1]), events[|events| - 1]);
      NeededSnoc(events, n);
    }
  }

  lemma AdmittedNext(events: seq<Event>)
    requires events != [] && OneTenantPerId(events[..|events| - 1])
    ensures OneTenantPerId(events) <==> Admits(ProjectAll(EMPTY, events[..|events| - 1]), events[|events| - 1])
  {
    hide Needs, ProjectAll;
    var n := |events| - 1;
    var init, last := events[..n], events[n];
    var g := ProjectAll(EMPTY, init);
    if OneTenantPerId(events) {
      forall k, m | k in Needs(last) && m in g.nodes && m.id == k.id
        ensures m.tenant == k.tenant
      {
        PassNodes(init, m);
        var i :| 0 <= i < |init| && m in Needs(init[i]);
        assert m in Needs(events[i]) && k in Needs(events[n]);
      }
    }
    if Admits(g, last) {
      forall i, j, k, l | 0 <= i < |events| && 0 <= j < |events| && k in Needs(events[i]) && l in Needs(events[j]) && k.id == l.id
        ensures k.tenant == l.tenant
      {
        if i < n && j < n {
          assert k in Needs(init[i]) && l in Needs(init[j]);
        } else if i < n {
          Precedes(init, i, k);
        } else if j < n {
          Precedes(init, j, l);
        } else {
          NeedsOneTenant(last, k, l);
        }
      }
    }
  }

  lemma Precedes(events: seq<Event>, i: nat, k: NodeKey)
    requires i < |events| && k in Needs(events[i])
    ensures k in ProjectAll(EMPTY, events).nodes
  {
    hide Needs, ProjectAll;
    PassNodes(events, k);
  }

  lemma NeedsOneTenant(event: Event, k: NodeKey, l: NodeKey)
    requires k in Needs(event) && l in Needs(event)
    ensures k.tenant == l.tenant
  {
    hide BuildStatement;
  }

  /**
   A pass from the empty graph goes through if and only if no id is needed for two tenants, and then it is
   the pass without the constraint.
   */
  lemma {:induction false} PassGoesThroughExactly(events: seq<Event>)
    ensures GuardedPass(events).Some? <==> OneTenantPerId(events)
    ensures GuardedPass(events).Some? ==> GuardedPass(events) == Some(ProjectAll(EMPTY, events))
    decreases |events|
  {
    hide Project, Needs, Admits, OneTenantPerId;
    if events == [] {
      assert OneTenantPerId([]) by { NothingNeeded(); }
    } else {
      PassGoesThroughExactly(events[..|events| - 1]);
      if OneTenantPerId(events) {
        PrefixKeepsTenants(events);
      }
      if OneTenantPerId(events[..|events| - 1]) {
        AdmittedNext(events);
      }
    }
  }

  lemma NothingNeeded()
    ensures OneTenantPerId([])
  {
  }

  lemma PrefixKeepsTenants(events: seq<Event>)
    requires events != [] && OneTenantPerId(events)
    ensures OneTenantPerId(events[..|events| - 1])
  {
    hide Needs;
  }

  // ----- deliveries -----

  /** When no id is needed for two tenants, no message is refused at any point of any delivery. */
  lemma DeliveryIsNeverRefused(published: seq<Message>, part: Partitioner, partitions: nat, steps: seq<Step>, m: Message)
    requires AllMergeable(published) && SharesKeys(published) && OneTenantPerId(EventsOf(published)) && m in published
    ensures Admits(Execute(Logs(published, part, partitions), steps).graph, m.event)
  {
    hide Execute, Needs, AllMergeable, SharesKeys, Exclusive, Partition, CellSettled;
    var logs := Logs(published, part, partitions);
    var s := Execute(logs, steps);
    LogsAreExclusive(published, part, partitions);
    var here :| 0 <= here < |published| && published[here] == m;
    forall k, n | k in Needs(m.event) && n in s.graph.nodes && n.id == k.id
      ensures n.tenant == k.tenant
    {
      RunsStaySettled(logs, steps, NodeCell(n, TenantId), HasNode(n));
      assert Holds(s.graph, HasNode(n));
      var p :| 0 <= p < |logs| && Mentions(logs[p], HasNode(n));
      var there := EstablishedBy(published, part, p, n);
      assert n in Needs(EventsOf(published)[there]) && k in Needs(EventsOf(published)[here]);
    }
  }

  lemma EstablishedBy(published: seq<Message>, part: Partitioner, p: nat, n: NodeKey) returns (there: nat)
    requires Mentions(Partition(published, part, p), HasNode(n))
    ensures there < |published| && n in Needs(published[there].event)
  {
    hide Needs, Partition;
    var log := Partition(published, part, p);
    var i :| 0 <= i < |log| && Establishes(log[i].event, HasNode(n));
    PartitionMembers(published, part, p);
    assert log[i] in published;
    there :| 0 <= there < |published| && published[there] == log[i];
    EstablishedIsNeeded(log[i].event, n);
  }

  lemma EstablishedIsNeeded(event: Event, n: NodeKey)
    requires Establishes(event, HasNode(n))
    ensures n in Needs(event)
  {
    hide BuildStatement;
  }

  // ----- ids the builders share between tenants -----

  /** Two documents of different tenants that name no source both need "source:unknown": no pass over both goes through. */
  lemma UnknownSourcesCollide(events: seq<Event>, a: Job, b: Job)
    requires a.NlpJob? && b.NlpJob? && Identified(a) && Identified(b) && a.source.tenant != b.source.tenant
    requires a.nlp.sourceId.None? && b.nlp.sourceId.None?
    requires (forall m :: m in Emit(a) ==> m.event in events) && forall m :: m in Emit(b) ==> m.event in events
    ensures GuardedPass(events) == None
  {
    hide GuardedPass, Needs, Identified, GraphBaseMutations;
    var k := SourceIsNeeded(a);
    var l := SourceIsNeeded(b);
    var i := SourceEventAt(events, a);
    var j := SourceEventAt(events, b);
    assert k in Needs(events[i]) && l in Needs(events[j]) && k.id == l.id && k.tenant != l.tenant;
    PassGoesThroughExactly(events);
  }

  /** The third of a document's mutations upserts its source. */
  lemma SourceIsNeeded(job: Job) returns (k: NodeKey)
    requires job.NlpJob? && Identified(job)
    ensures |Emit(job)| == 5 && k in Needs(Emit(job)[2].event)
    ensures job.source.tenant == Text(k.tenant) && k.id == SourceId(job.nlp)
  {
    hide Blank, NlpProperties, DocumentProperties, ArticleProperties;
    MutationCounts(job);
    k := NodeKey(job.source.tenant.value, SourceId(job.nlp));
  }

  lemma SourceEventAt(events: seq<Event>, job: Job) returns (i: nat)
    requires job.NlpJob? && forall m :: m in Emit(job) ==> m.event in events
    ensures i < |events| && |Emit(job)| == 5 && events[i] == Emit(job)[2].event
  {
    hide GraphBaseMutations;
    MutationCounts(job);
    assert Emit(job)[2] in Emit(job);
    i :| 0 <= i < |events| && events[i] == Emit(job)[2].event;
  }
}
